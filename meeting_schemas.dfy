/**
 * The request and response shapes of a meeting (pydantic models) and their
 * field constraints. Pydantic reports every violated field constraint, in
 * field declaration order; a payload with no error is the validated model.
 */
module MeetingSchemas {
  import opened Wrappers
  import opened Domain

  const TITLE_MAX_LENGTH: nat := 250
  const DESCRIPTION_MAX_LENGTH: nat := 250

  /** Pydantic's `string_too_short` and `string_too_long` errors, located at a field. */
  datatype FieldError = StringTooShort(loc: string, minLength: nat) | StringTooLong(loc: string, maxLength: nat)

  /** `title: str` with `min_length=1, max_length=250`. */
  function TitleErrors(title: string): (r: seq<FieldError>)
    ensures r == [] <==> 1 <= |title| <= TITLE_MAX_LENGTH
    ensures |r| <= 1
  {
    if |title| < 1 then [StringTooShort("title", 1)]
    else if |title| > TITLE_MAX_LENGTH then [StringTooLong("title", TITLE_MAX_LENGTH)]
    else []
  }

  /** `description: str | None` with `max_length=250`; `None` is always accepted. */
  function DescriptionErrors(description: Option<string>): (r: seq<FieldError>)
    ensures r == [] <==> description.None? || |description.value| <= DESCRIPTION_MAX_LENGTH
  {
    if description.Some? && |description.value| > DESCRIPTION_MAX_LENGTH
    then [StringTooLong("description", DESCRIPTION_MAX_LENGTH)]
    else []
  }

  /** `MeetingCreateSchema`: the base fields plus a required list of participant user ids. */
  datatype MeetingCreate = MeetingCreate(
    title: string,
    description: Option<string>,
    start: Instant,
    end: Instant,
    participants: seq<int>)

  function CreateErrors(c: MeetingCreate): (r: seq<FieldError>)
    ensures r == [] <==>
      (1 <= |c.title| <= TITLE_MAX_LENGTH && (c.description.None? || |c.description.value| <= DESCRIPTION_MAX_LENGTH))
  {
    TitleErrors(c.title) + DescriptionErrors(c.description)
  }

  /**
   * A field of a partial update: left out of the payload (`Unset`), sent as
   * `null` (`Null`), or sent with a value. `model_dump(exclude_unset=True)`
   * keeps both of the last two.
   */
  datatype Field<T> = Unset | Null | Value(v: T) {
    /** The attribute as the schema object holds it (`None` unless a value was sent). */
    function Given(): Option<T> {
      if Value? then Some(v) else None
    }
  }

  /** `MeetingUpdateSchema`: every field optional, defaulting to `None`. */
  datatype MeetingUpdate = MeetingUpdate(
    title: Field<string>,
    description: Field<string>,
    start: Field<Instant>,
    end: Field<Instant>,
    isCancelled: Field<bool>,
    participants: Field<seq<int>>)

  const EMPTY_UPDATE := MeetingUpdate(Unset, Unset, Unset, Unset, Unset, Unset)

  /** A sent title must still be 1..250 characters; a sent description at most 250. */
  function UpdateErrors(u: MeetingUpdate): (r: seq<FieldError>)
    ensures r == [] <==>
      ((u.title.Value? ==> 1 <= |u.title.v| <= TITLE_MAX_LENGTH) && (u.description.Value? ==> |u.description.v| <= DESCRIPTION_MAX_LENGTH))
  {
    (if u.title.Value? then TitleErrors(u.title.v) else [])
    + DescriptionErrors(u.description.Given())
  }

  /** `MeetingSchema`, the response shape (timestamps left out). */
  datatype MeetingRead = MeetingRead(
    id: int,
    title: string,
    description: Option<string>,
    start: Instant,
    end: Instant,
    organizerId: int,
    teamId: int,
    isCancelled: bool,
    participants: seq<int>)

  function ToRead(m: Meeting, participantIds: seq<int>): (r: MeetingRead)
    ensures r.id == m.id && r.organizerId == m.organizerId && r.teamId == m.teamId
    ensures r.isCancelled == m.isCancelled && r.participants == participantIds
    ensures r.start == m.start && r.end == m.end && r.title == m.title && r.description == m.description
  {
    MeetingRead(m.id, m.title, m.description, m.start, m.end, m.organizerId, m.teamId, m.isCancelled, participantIds)
  }
}
