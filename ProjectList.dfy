/**
 * The rules of the project list screen apart from its layout: when it asks for the next page,
 * how a team is shown and read back, what each field of the edit dialog saves, and which card
 * is selected.
 */
module ProjectList {
  import opened Wrappers
  import opened Text
  import opened ProjectStatus
  import opened ProjectModel
  import opened WorksState
  import opened WorksViewModel

  // ---------------------------------------------------------------------------
  // The load-more trigger
  // ---------------------------------------------------------------------------

  /** The item at `index` of `count` asks for the next page: it is the last one, more pages exist, none is loading. */
  predicate ShouldLoadMore(index: int, count: int, hasMorePages: bool, isLoadingMore: bool) {
    index == count - 1 && hasMorePages && !isLoadingMore
  }

  /** Only the last item asks, and whenever it asks with the controller's flags, the controller's guard lets it through. */
  lemma LoadMoreTriggerPassesGuard(s: WorksState, index: int)
    requires 0 <= index < |s.projects|
    ensures ShouldLoadMore(index, |s.projects|, s.hasMorePages, s.isLoadingMore)
      <==> index == |s.projects| - 1 && !Refuses(s, false)
  {
  }

  // ---------------------------------------------------------------------------
  // The team as text
  // ---------------------------------------------------------------------------

  /** The team as the card and the dialog show it: the members joined by ", ". */
  function TeamText(team: seq<string>): string {
    Join(", ", team)
  }

  /** The team a saved text stands for: the pieces between commas, each trimmed. */
  function ParseTeam(text: string): (r: seq<string>)
    ensures |r| >= 1
    ensures forall i :: 0 <= i < |r| ==> ',' !in r[i] && IsTrimmed(r[i])
  {
    var pieces := Split(text, ',');
    var r := TrimAll(pieces);
    assert forall i :: 0 <= i < |r| ==> ',' !in r[i] by {
      forall i | 0 <= i < |r| ensures ',' !in r[i] {
        TrimKeepsOut(pieces[i], ',');
      }
    }
    r
  }

  /** Trimming only removes characters, so a character absent from s is absent from its trim. */
  lemma TrimKeepsOut(s: string, c: char)
    requires c !in s
    ensures c !in Trim(s)
  {
    var t, i := Trim(s), LeadingBlanks(s);
    forall k | 0 <= k < |t| ensures t[k] != c {
      assert t[k] == s[i + k];
    }
  }

  /** A member that survives showing and reading back: no comma, no whitespace at either end. */
  predicate Editable(member: string) {
    ',' !in member && IsTrimmed(member)
  }

  /**
   * Reading back the shown text gives the team again when every member is editable;
   * an empty team comes back as one empty member.
   */
  lemma TeamTextRoundTrip(team: seq<string>)
    requires forall i :: 0 <= i < |team| ==> Editable(team[i])
    ensures ParseTeam(TeamText(team)) == if team == [] then [""] else team
  {
    JoinThenSplit(team);
    forall i | 0 <= i < |team| ensures Trim(team[i]) == team[i] {
      TrimOfTrimmed(team[i]);
    }
  }

  /** A comma inside a member splits it: ["Ana, Luis"] is read back as two members. */
  lemma CommaSplitsAMember()
    ensures ParseTeam(TeamText(["Ana, Luis"])) == ["Ana", "Luis"]
  {
    assert TeamText(["Ana, Luis"]) == "Ana, Luis";
    SplitAtTheComma();
    TrimBothPieces();
  }

  lemma SplitAtTheComma()
    ensures Split("Ana, Luis", ',') == ["Ana", " Luis"]
  {
    var a, b := "Ana", " Luis";
    assert a + [','] + b == "Ana, Luis";
    SplitAfterPiece(a, ',', b);
    SplitWithoutDelimiter(b, ',');
  }

  lemma TrimBothPieces()
    ensures TrimAll(["Ana", " Luis"]) == ["Ana", "Luis"]
  {
    var t := TrimAll(["Ana", " Luis"]);
    TrimmedAna();
    TrimmedLuis();
    assert t[0] == "Ana" && t[1] == "Luis";
  }

  lemma TrimmedAna()
    ensures Trim("Ana") == "Ana"
  {
    TrimOfTrimmed("Ana");
  }

  lemma TrimmedLuis()
    ensures Trim(" Luis") == "Luis"
  {
    var name := "Luis";
    assert IsTrimmed(name);
    TrimOfTrimmed(name);
    TrimLeadingSpace(name);
    assert " " + name == " Luis";
  }

  // ---------------------------------------------------------------------------
  // The edit dialog
  // ---------------------------------------------------------------------------

  /** The status options: the display names, in the order of the constants. */
  function StatusOptions(): (r: seq<string>)
    ensures |r| == |Entries| && forall i :: 0 <= i < |r| ==> r[i] == DisplayName(Entries[i])
  {
    seq(|Entries|, i requires 0 <= i < |Entries| => DisplayName(Entries[i]))
  }

  /** What the dialog's fields show first; with no project selected, the first status and empty texts. */
  datatype DialogFields = DialogFields(status: string, name: string, description: string, creationDate: string, team: string)

  function InitialFields(selected: Option<ProjectData>): (r: DialogFields)
    ensures r.status in StatusOptions()
    ensures selected.None? ==> r == DialogFields("En Progreso", "", "", "", "")
    ensures selected.Some? ==> r == DialogFields(DisplayName(selected.value.status), selected.value.name,
      selected.value.description, selected.value.creationDate, TeamText(selected.value.teamMembers))
  {
    assert forall s :: DisplayName(s) in StatusOptions() by {
      forall s ensures DisplayName(s) in StatusOptions() {
        EntriesAreAllConstants();
        var i :| 0 <= i < |Entries| && Entries[i] == s;
        assert StatusOptions()[i] == DisplayName(s);
      }
    }
    match selected
    case None => DialogFields(DisplayName(IN_PROGRESS), "", "", "", "")
    case Some(p) => DialogFields(DisplayName(p.status), p.name, p.description, p.creationDate, TeamText(p.teamMembers))
  }

  /** The field a callback is for, with the text the user entered. */
  datatype Edit =
    | StatusChange(value: string)
    | NameChange(value: string)
    | DescriptionChange(value: string)
    | CreationDateChange(value: string)
    | TeamChange(value: string)

  /** What a callback does: save a copy, do nothing (no project selected) or throw. */
  datatype Outcome = Saved(project: ProjectData) | NothingSaved | Threw(error: Error)

  /** The `onStateChange` callbacks: a copy of the selected project with the one edited field replaced. */
  function OnStateChange(selected: Option<ProjectData>, edit: Edit): Outcome {
    match selected
    case None => NothingSaved
    case Some(p) =>
      match edit
      case StatusChange(v) =>
        (match ValueOf(v)
         case Ok(status) => Saved(p.(status := status))
         case Err(e) => Threw(e))
      case NameChange(v) => Saved(p.(name := v))
      case DescriptionChange(v) => Saved(p.(description := v))
      case CreationDateChange(v) => Saved(p.(creationDate := v))
      case TeamChange(v) => Saved(p.(teamMembers := ParseTeam(v)))
  }

  /** With no project selected nothing is saved, whatever the edit. */
  lemma NoSelectionSavesNothing(edit: Edit)
    ensures OnStateChange(None, edit) == NothingSaved
  {
  }

  /** Each text edit saves the selected project with that one field changed. */
  lemma TextEditsChangeOneField(p: ProjectData, v: string)
    ensures OnStateChange(Some(p), NameChange(v)) == Saved(ProjectData(p.id, v, p.description, p.status, p.creationDate, p.teamMembers))
    ensures OnStateChange(Some(p), DescriptionChange(v)) == Saved(ProjectData(p.id, p.name, v, p.status, p.creationDate, p.teamMembers))
    ensures OnStateChange(Some(p), CreationDateChange(v)) == Saved(ProjectData(p.id, p.name, p.description, p.status, v, p.teamMembers))
    ensures OnStateChange(Some(p), TeamChange(v)) == Saved(ProjectData(p.id, p.name, p.description, p.status, p.creationDate, ParseTeam(v)))
  {
  }

  /** Choosing any of the offered statuses throws: the options are display names, `valueOf` wants constant names. */
  lemma StatusChoiceAlwaysThrows(p: ProjectData, i: int)
    requires 0 <= i < |StatusOptions()|
    ensures OnStateChange(Some(p), StatusChange(StatusOptions()[i])) == Threw(NoSuchConstant(StatusOptions()[i]))
  {
    var name := DisplayName(Entries[i]);
    assert ValueOf(name) == Err(NoSuchConstant(name));
  }

  /** Saving the team text the dialog first shows gives back the project when its members are editable. */
  lemma UnchangedTeamSavesSameProject(p: ProjectData)
    requires p.teamMembers != [] && forall i :: 0 <= i < |p.teamMembers| ==> Editable(p.teamMembers[i])
    ensures OnStateChange(Some(p), TeamChange(InitialFields(Some(p)).team)) == Saved(p)
  {
    TeamTextRoundTrip(p.teamMembers);
  }

  // ---------------------------------------------------------------------------
  // Selection and the dialog
  // ---------------------------------------------------------------------------

  /** The screen's two state cells: the selected project and whether the dialog shows. */
  class ProjectListScreen {
    var selected: Option<ProjectData>
    var isShowDialog: bool

    constructor ()
      ensures selected == None && !isShowDialog
    {
      selected := None;
      isShowDialog := false;
    }

    /** Clicking a card selects its project and opens the dialog. */
    method OnCardClick(project: ProjectData)
      modifies this
      ensures selected == Some(project) && isShowDialog
    {
      selected := Some(project);
      isShowDialog := true;
    }

    /** Dismissing the dialog closes it; the selection stays. */
    method OnDismissRequest()
      modifies this
      ensures !isShowDialog && selected == old(selected)
    {
      isShowDialog := false;
    }

    /** "Cancelar" closes the dialog; the selection stays. */
    method OnCancel()
      modifies this
      ensures !isShowDialog && selected == old(selected)
    {
      isShowDialog := false;
    }

    /** "Guardar" only closes the dialog: each field saved itself when it changed. */
    method OnSave()
      modifies this
      ensures !isShowDialog && selected == old(selected)
    {
      isShowDialog := false;
    }

    /** What the dialog's fields show, for the current selection. */
    function Fields(): (r: DialogFields)
      reads this
      ensures r == InitialFields(selected)
    {
      InitialFields(selected)
    }
  }

  /** After clicking a card the dialog shows that project's fields, whatever was selected before. */
  method ClickShowsProject(screen: ProjectListScreen, project: ProjectData) returns (fields: DialogFields)
    modifies screen
    ensures screen.isShowDialog && fields.name == project.name && fields.status == DisplayName(project.status)
    ensures fields.team == TeamText(project.teamMembers)
  {
    screen.OnCardClick(project);
    fields := screen.Fields();
  }
}
