/** Room type converters: a status is stored by its constant name, a team as a JSON text. */
module Converters {
  import opened Wrappers
  import opened ProjectStatus

  /** `fromProjectStatus`: the constant's name; reading it back gives the same status. */
  function FromProjectStatus(status: Status): (r: string)
    ensures ToProjectStatus(r) == Ok(status)
    ensures forall other :: other != status ==> Name(other) != r
  {
    Name(status)
  }

  /** `toProjectStatus`: `valueOf`, which throws on anything but the four constant names. */
  function ToProjectStatus(text: string): (r: Result<Status>)
    ensures r.Ok? <==> text in ["IN_PROGRESS", "COMPLETED", "ON_HOLD", "CANCELLED"]
    ensures r.Ok? ==> Name(r.value) == text
    ensures r.Err? ==> r.error == NoSuchConstant(text)
  {
    ValueOf(text)
  }

  /** Stored text never stands for a display name: reading a display name back always fails. */
  lemma DisplayNameIsNotStorable(s: Status)
    ensures ToProjectStatus(DisplayName(s)).Err?
  {
  }

  /**
   * The JSON codec for the team list (kotlinx.serialization), kept abstract: `decode` yields None
   * where `decodeFromString` throws.
   */
  datatype ListCodec = ListCodec(encode: seq<string> -> string, decode: string -> Option<seq<string>>) {
    /** What the converters' comments promise: decoding an encoded list gives the list back. */
    ghost predicate RoundTrips() {
      forall l :: decode(encode(l)) == Some(l)
    }
  }

  /** `fromStringList`: the JSON text of the list, which decodes back to it. */
  function FromStringList(codec: ListCodec, teamMembers: seq<string>): (r: string)
    ensures codec.RoundTrips() ==> codec.decode(r) == Some(teamMembers)
  {
    codec.encode(teamMembers)
  }

  /** `toStringList`: the decoded list, or the exception `decodeFromString` throws. */
  function ToStringList(codec: ListCodec, json: string): (r: Result<seq<string>>)
    ensures r.Ok? <==> codec.decode(json).Some?
    ensures r.Ok? ==> Some(r.value) == codec.decode(json)
    ensures r.Err? ==> r.error == MalformedJson(json)
  {
    match codec.decode(json)
    case Some(l) => Ok(l)
    case None => Err(MalformedJson(json))
  }

  lemma StringListRoundTrip(codec: ListCodec, teamMembers: seq<string>)
    requires codec.RoundTrips()
    ensures ToStringList(codec, FromStringList(codec, teamMembers)) == Ok(teamMembers)
  {
  }
}
