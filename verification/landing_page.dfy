/**
 * Input normalisation of the landing page (components/LandingPage.tsx): the
 * host and join forms, and the player-limit field. Submitting either form
 * yields either the error shown on the page or the arguments handed to the
 * application's `onHost` / `onJoin` callback.
 */
module LandingPage {
  import opened Base
  import opened Text
  import Helpers

  /** The player-limit field's state: the empty string while the field is
      cleared, a number otherwise. These are the only values its handlers store. */
  datatype LimitField = Blank | Count(n: int)

  /** The field's value on first render. */
  const DefaultLimitField: LimitField := Count(4)

  const HostNameRequired: string := "Host Identity Required."
  const CredentialsIncomplete: string := "Credentials Incomplete."

  /** Smallest and largest room capacity a host may ask for. */
  const MinPlayers: int := 1
  const MaxPlayers: int := 8

  /** Longest custom room code kept. */
  const MaxCodeLength: nat := 8

  /** Arguments of `onHost(name, roomCode, maxPlayers)`. */
  datatype HostRequest = HostRequest(name: string, roomCode: string, maxPlayers: int)

  /** Arguments of `onJoin(name, roomCode)`. */
  datatype JoinRequest = JoinRequest(name: string, roomCode: string)

  function Clamp(n: int): (r: int)
    ensures MinPlayers <= r <= MaxPlayers
    ensures MinPlayers <= n <= MaxPlayers ==> r == n
    ensures n < MinPlayers ==> r == MinPlayers
    ensures n > MaxPlayers ==> r == MaxPlayers
  {
    if n < MinPlayers then MinPlayers else if n > MaxPlayers then MaxPlayers else n
  }

  /** The limit a host submit passes on: a cleared field parses to `NaN` and
      becomes 1; a number is clamped to [1, 8]. */
  function SubmittedLimit(field: LimitField): (limit: int)
    ensures MinPlayers <= limit <= MaxPlayers
    ensures field.Blank? ==> limit == MinPlayers
    ensures field.Count? && MinPlayers <= field.n <= MaxPlayers ==> limit == field.n
    ensures field.Count? && field.n < MinPlayers ==> limit == MinPlayers
    ensures field.Count? && field.n > MaxPlayers ==> limit == MaxPlayers
  {
    match field
    case Blank => MinPlayers
    case Count(n) => Clamp(n)
  }

  /** `handleHostSubmit`. A callsign that trims to nothing is refused. The code
      is the custom code upper-cased and cut to eight characters (untrimmed)
      when it has any non-blank character, and a freshly generated code from
      `rolls` otherwise. */
  function HostSubmit(hostName: string, customCode: string, limit: LimitField, rolls: seq<real>)
    : (r: Result<HostRequest, string>)
    requires Helpers.ValidRolls(rolls)
    ensures r.Err? <==> IsBlank(hostName)
    ensures r.Err? ==> r.error == HostNameRequired
    ensures r.Ok? ==>
      && r.value.name == hostName
      && MinPlayers <= r.value.maxPlayers <= MaxPlayers
      && r.value.maxPlayers == SubmittedLimit(limit)
      && (!IsBlank(customCode) ==> r.value.roomCode == Prefix(ToUpper(customCode), MaxCodeLength))
      && (IsBlank(customCode) ==> r.value.roomCode == Helpers.RoomCode(rolls))
      && 0 < |r.value.roomCode| <= MaxCodeLength
  {
    if Trim(hostName) == [] then
      Err(HostNameRequired)
    else
      var code := if Trim(customCode) != [] then Prefix(ToUpper(customCode), MaxCodeLength)
                  else Helpers.RoomCode(rolls);
      Ok(HostRequest(hostName, code, SubmittedLimit(limit)))
  }

  /** `handleJoinSubmit`: a blank callsign or blank code is refused; otherwise
      the callsign goes on unchanged and the code upper-cased. */
  function JoinSubmit(joinName: string, joinCode: string): (r: Result<JoinRequest, string>)
    ensures r.Err? <==> IsBlank(joinName) || IsBlank(joinCode)
    ensures r.Err? ==> r.error == CredentialsIncomplete
    ensures r.Ok? ==> r.value.name == joinName && r.value.roomCode == ToUpper(joinCode)
  {
    if Trim(joinName) == [] || Trim(joinCode) == [] then Err(CredentialsIncomplete)
    else Ok(JoinRequest(joinName, ToUpper(joinCode)))
  }

  /** `handleMaxPlayersChange`: a cleared input clears the field, input that
      parses to an integer stores it clamped to [1, 8], and anything else leaves
      the field as it was. */
  function MaxPlayersChange(field: LimitField, input: string): (r: LimitField)
    ensures input == "" ==> r == Blank
    ensures input != "" && ParseInt(input).Some? ==> r == Count(Clamp(ParseInt(input).value))
    ensures input != "" && ParseInt(input).None? ==> r == field
    ensures r.Count? && r != field ==> MinPlayers <= r.n <= MaxPlayers
  {
    if input == "" then Blank
    else match ParseInt(input)
      case None => field
      case Some(n) => Count(Clamp(n))
  }

  /** `handleMaxPlayersBlur`: a cleared field, or a zero, falls back to 4. */
  function MaxPlayersBlur(field: LimitField): (r: LimitField)
    ensures field == Blank || field == Count(0) ==> r == Count(4)
    ensures field != Blank && field != Count(0) ==> r == field
    ensures r != Blank
  {
    if field == Blank || field == Count(0) then Count(4) else field
  }

  /** Typing the decimal digits of a number stores that number, clamped. */
  lemma ChangeToNumber(field: LimitField, n: nat)
    ensures MaxPlayersChange(field, NatToString(n)) == Count(Clamp(n))
  {
    ParseIntOfNatToString(n);
  }

  /** The values the field can hold: blank, or a number in [1, 8]. */
  predicate InRangeField(field: LimitField) {
    field == Blank || (field.Count? && MinPlayers <= field.n <= MaxPlayers)
  }

  /** What the user does to the player-limit input. */
  datatype FieldEvent = Change(input: string) | Blur

  /** The field after the events, one handler call each. */
  function FieldRun(field: LimitField, events: seq<FieldEvent>): LimitField
    decreases |events|
  {
    if events == [] then field
    else
      var next := match events[0]
        case Change(input) => MaxPlayersChange(field, input)
        case Blur => MaxPlayersBlur(field);
      FieldRun(next, events[1..])
  }

  /** Whatever the user types and however often the input loses focus, a field
      that starts blank or in range stays blank or in [1, 8]; a blur always
      leaves a number in range. */
  lemma {:induction false} FieldStaysInRange(field: LimitField, events: seq<FieldEvent>)
    requires InRangeField(field)
    ensures InRangeField(FieldRun(field, events))
    ensures InRangeField(MaxPlayersBlur(field)) && MaxPlayersBlur(field).Count?
    decreases |events|
  {
    if events != [] {
      var next := match events[0]
        case Change(input) => MaxPlayersChange(field, input)
        case Blur => MaxPlayersBlur(field);
      FieldStaysInRange(next, events[1..]);
    }
  }

  /** From its first-render value of 4, the field only ever holds blank or a
      number in [1, 8], and a host submit passes on exactly that number or 1. */
  lemma DefaultFieldStaysInRange(events: seq<FieldEvent>)
    ensures InRangeField(FieldRun(DefaultLimitField, events))
    ensures var field := FieldRun(DefaultLimitField, events);
      SubmittedLimit(field) == if field.Count? then field.n else MinPlayers
  {
    FieldStaysInRange(DefaultLimitField, events);
  }
}
