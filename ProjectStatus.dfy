/** The status of a project: four constants, each with a display name and an ARGB colour. */
module ProjectStatus {
  import opened Wrappers

  datatype Status = IN_PROGRESS | COMPLETED | ON_HOLD | CANCELLED

  /** `ProjectStatus.entries`: the constants in declaration order. */
  const Entries: seq<Status> := [IN_PROGRESS, COMPLETED, ON_HOLD, CANCELLED]

  /** The constant's `name`, as Kotlin spells it. */
  function Name(s: Status): string {
    match s
    case IN_PROGRESS => "IN_PROGRESS"
    case COMPLETED => "COMPLETED"
    case ON_HOLD => "ON_HOLD"
    case CANCELLED => "CANCELLED"
  }

  /** The text shown to the user; never a constant's name, so `valueOf` refuses it. */
  function DisplayName(s: Status): (r: string)
    ensures forall t :: r != Name(t)
    ensures ValueOf(r) == Err(NoSuchConstant(r))
  {
    match s
    case IN_PROGRESS => "En Progreso"
    case COMPLETED => "Completado"
    case ON_HOLD => "En Pausa"
    case CANCELLED => "Cancelado"
  }

  /** The badge colour as a 32-bit ARGB value. */
  function Color(s: Status): nat {
    match s
    case IN_PROGRESS => 0xFF3B82F6
    case COMPLETED => 0xFF22C55E
    case ON_HOLD => 0xFFF97316
    case CANCELLED => 0xFFEF4444
  }

  /** `ProjectStatus.valueOf`: the constant with exactly this name, or IllegalArgumentException. */
  function ValueOf(name: string): (r: Result<Status>)
    ensures forall s :: Name(s) == name ==> r == Ok(s)
    ensures r.Ok? ==> Name(r.value) == name
    ensures r.Err? ==> r == Err(NoSuchConstant(name))
  {
    if name == "IN_PROGRESS" then Ok(IN_PROGRESS)
    else if name == "COMPLETED" then Ok(COMPLETED)
    else if name == "ON_HOLD" then Ok(ON_HOLD)
    else if name == "CANCELLED" then Ok(CANCELLED)
    else Err(NoSuchConstant(name))
  }

  /** Exactly four constants, listed once each and in declaration order. */
  lemma EntriesAreAllConstants()
    ensures |Entries| == 4
    ensures forall s :: s in Entries
    ensures forall i, j :: 0 <= i < j < |Entries| ==> Entries[i] != Entries[j]
    ensures Entries[0] == IN_PROGRESS && Entries[1] == COMPLETED && Entries[2] == ON_HOLD && Entries[3] == CANCELLED
  {
    forall s | true
      ensures s in Entries
    {
      match s
      case IN_PROGRESS => assert Entries[0] == s;
      case COMPLETED => assert Entries[1] == s;
      case ON_HOLD => assert Entries[2] == s;
      case CANCELLED => assert Entries[3] == s;
    }
  }

  /** Different constants have different names, display names and colours. */
  lemma FieldsDistinguishConstants(s: Status, t: Status)
    requires s != t
    ensures Name(s) != Name(t)
    ensures DisplayName(s) != DisplayName(t)
    ensures Color(s) != Color(t)
  {
  }

  /** Every colour is an opaque 32-bit ARGB value. */
  lemma ColorsAreOpaqueArgb(s: Status)
    ensures 0xFF000000 <= Color(s) < 0x1_0000_0000
  {
  }
}
