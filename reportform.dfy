/** The form state of the report page (src/components/ReportForm.jsx) and the
    handlers that update it, separated from rendering: each handler takes the
    current state and gives the next one. */
module ReportForm {
  import opened Wrappers
  import Server

  /** One row of the "Individuals in Custody" section. */
  datatype Individual = Individual(name: string, id: string)

  /** `formData`. */
  datatype FormState = FormState(
    officerName: string,
    badgeNumber: string,
    assignedArea: string,
    incidentTime: string,
    incidentDetails: string,
    healthcare: string,
    mentalHealth: string,
    restrictiveHousing: string,
    inmates: seq<Individual>)

  /** The `name` attributes of the inputs, textarea and selects wired to
      `handleChange`. */
  datatype FieldName =
    | OfficerName | BadgeNumber | AssignedArea | IncidentTime | IncidentDetails
    | Healthcare | MentalHealth | RestrictiveHousing

  /** The two members of a row that `handleInmateChange` writes. */
  datatype IndividualField = Name | Id

  const BlankIndividual := Individual("", "")

  /** The state the page starts in. */
  const InitialForm := FormState("", "", "", "", "", "no", "no", "no", [Individual("", "")])

  /** The value the form holds under `name`. */
  function Get(f: FormState, name: FieldName): string {
    match name
    case OfficerName => f.officerName
    case BadgeNumber => f.badgeNumber
    case AssignedArea => f.assignedArea
    case IncidentTime => f.incidentTime
    case IncidentDetails => f.incidentDetails
    case Healthcare => f.healthcare
    case MentalHealth => f.mentalHealth
    case RestrictiveHousing => f.restrictiveHousing
  }

  /** `handleChange`: the field the input names takes the new value; every
      other field and the rows stay as they were. */
  function HandleChange(f: FormState, name: FieldName, value: string): (r: FormState)
    ensures Get(r, name) == value
    ensures forall other :: other != name ==> Get(r, other) == Get(f, other)
    ensures r.inmates == f.inmates
  {
    match name
    case OfficerName => f.(officerName := value)
    case BadgeNumber => f.(badgeNumber := value)
    case AssignedArea => f.(assignedArea := value)
    case IncidentTime => f.(incidentTime := value)
    case IncidentDetails => f.(incidentDetails := value)
    case Healthcare => f.(healthcare := value)
    case MentalHealth => f.(mentalHealth := value)
    case RestrictiveHousing => f.(restrictiveHousing := value)
  }

  /** Setting a field to the value it already has changes nothing, and
      setting it twice keeps the second value. */
  lemma HandleChangeLaws(f: FormState, name: FieldName, v: string, w: string)
    ensures HandleChange(f, name, Get(f, name)) == f
    ensures HandleChange(HandleChange(f, name, v), name, w) == HandleChange(f, name, w)
  {
  }

  /** `addInmate`: exactly one blank row is appended; the earlier rows and
      every other field stay as they were. */
  function AddInmate(f: FormState): (r: FormState)
    ensures |r.inmates| == |f.inmates| + 1
    ensures r.inmates[..|f.inmates|] == f.inmates
    ensures r.inmates[|f.inmates|] == BlankIndividual
    ensures r.(inmates := f.inmates) == f
  {
    f.(inmates := f.inmates + [Individual("", "")])
  }

  /** `filter((_, i) => i !== index)` over the rows; `from` is the position
      of the first row of `rows` in the whole list. */
  function WithoutIndex(rows: seq<Individual>, index: int, from: int): (r: seq<Individual>)
    ensures from <= index < from + |rows| ==>
      |r| == |rows| - 1 && r == rows[..index - from] + rows[index - from + 1..]
    ensures !(from <= index < from + |rows|) ==> r == rows
    decreases |rows|
  {
    if rows == [] then []
    else
      var rest := WithoutIndex(rows[1..], index, from + 1);
      if index == from then
        assert rest == rows[1..];
        rest
      else
        assert from < index < from + |rows| ==> rows[..index - from] == [rows[0]] + rows[1..][..index - from - 1];
        [rows[0]] + rest
  }

  /** `removeInmate(index)`: with `index` a position of the list, exactly that
      row is dropped and the others keep their order; any other number leaves
      the list as it is. The other fields are untouched either way. */
  function RemoveInmate(f: FormState, index: int): (r: FormState)
    ensures 0 <= index < |f.inmates| ==>
      |r.inmates| == |f.inmates| - 1 && r.inmates == f.inmates[..index] + f.inmates[index + 1..]
    ensures !(0 <= index < |f.inmates|) ==> r.inmates == f.inmates
    ensures r.(inmates := f.inmates) == f
  {
    f.(inmates := WithoutIndex(f.inmates, index, 0))
  }

  /** Adding a row and removing it again gives the state back. */
  lemma RemoveUndoesAdd(f: FormState)
    ensures RemoveInmate(AddInmate(f), |f.inmates|) == f
  {
    var g := AddInmate(f);
    assert g.inmates[..|f.inmates|] == f.inmates;
  }

  /** The value a row holds in `field`. */
  function GetIndividual(x: Individual, field: IndividualField): string {
    match field
    case Name => x.name
    case Id => x.id
  }

  function OtherField(field: IndividualField): IndividualField {
    match field
    case Name => Id
    case Id => Name
  }

  /** `row[field] = value`. */
  function SetIndividual(x: Individual, field: IndividualField, value: string): (y: Individual)
    ensures GetIndividual(y, field) == value
    ensures GetIndividual(y, OtherField(field)) == GetIndividual(x, OtherField(field))
  {
    match field
    case Name => x.(name := value)
    case Id => x.(id := value)
  }

  /** What `handleInmateChange` leaves in the rows: row `index` has `value`
      in `field`, its other member is kept, and every other row and the number
      of rows are unchanged. */
  function SetIndividualField(rows: seq<Individual>, index: nat, field: IndividualField, value: string): (r: seq<Individual>)
    requires index < |rows|
    ensures |r| == |rows|
    ensures forall j :: 0 <= j < |r| && j != index ==> r[j] == rows[j]
    ensures GetIndividual(r[index], field) == value
    ensures GetIndividual(r[index], OtherField(field)) == GetIndividual(rows[index], OtherField(field))
  {
    rows[index := SetIndividual(rows[index], field, value)]
  }

  /** `handleInmateChange(index, field, value)`: copies the rows into a new
      array, writes the one member of row `index`, and puts the copy in the
      form. A position outside the list has no row to write to, which throws
      in the script; that outcome is `None`. */
  method HandleInmateChange(f: FormState, index: int, field: IndividualField, value: string)
    returns (r: Option<FormState>)
    ensures 0 <= index < |f.inmates| ==>
      r == Some(f.(inmates := SetIndividualField(f.inmates, index, field, value)))
    ensures !(0 <= index < |f.inmates|) ==> r == None
  {
    var updatedInmates := new Individual[|f.inmates|](i requires 0 <= i < |f.inmates| => f.inmates[i]);
    assert updatedInmates[..] == f.inmates;
    if index < 0 || index >= updatedInmates.Length {
      return None;
    }
    updatedInmates[index] := SetIndividual(updatedInmates[index], field, value);
    r := Some(f.(inmates := updatedInmates[..]));
  }

  /** `handleReset`: the form is written anew with the start values. */
  function HandleReset(f: FormState): (r: FormState)
    ensures forall n :: n in {OfficerName, BadgeNumber, AssignedArea, IncidentTime, IncidentDetails} ==>
      Get(r, n) == ""
    ensures forall n :: n in {Healthcare, MentalHealth, RestrictiveHousing} ==> Get(r, n) == "no"
    ensures r.inmates == [BlankIndividual]
  {
    FormState("", "", "", "", "", "no", "no", "no", [Individual("", "")])
  }

  /** Resetting from any state gives the state the page started in. */
  lemma ResetRestoresInitial(f: FormState)
    ensures HandleReset(f) == InitialForm
  {
    var r := HandleReset(f);
    assert r.inmates == InitialForm.inmates;
    assert Get(r, OfficerName) == Get(InitialForm, OfficerName);
    assert Get(r, Healthcare) == Get(InitialForm, Healthcare);
  }

  // ---------------------------------------------------------------------
  // What the rendered page lets a user do
  // ---------------------------------------------------------------------

  /** One user action on the rendered form. */
  datatype Event =
    | Edit(name: FieldName, value: string)
    | EditIndividual(index: int, field: IndividualField, value: string)
    | Add
    | Remove(index: int)

  predicate IsFlag(name: FieldName) {
    name == Healthcare || name == MentalHealth || name == RestrictiveHousing
  }

  /** Whether the page offers the action: the selects have only the options
      "yes" and "no", each row's inputs and buttons carry that row's index,
      and the remove button is rendered only while there is more than one
      row. No element of the page calls `handleReset`, so reset is not one
      of the actions. */
  predicate Offered(f: FormState, e: Event) {
    match e
    case Edit(name, value) => IsFlag(name) ==> value == "yes" || value == "no"
    case EditIndividual(index, _, _) => 0 <= index < |f.inmates|
    case Add => true
    case Remove(index) => |f.inmates| > 1 && 0 <= index < |f.inmates|
  }

  /** The state after an offered action. */
  function Step(f: FormState, e: Event): FormState
    requires Offered(f, e)
  {
    match e
    case Edit(name, value) => HandleChange(f, name, value)
    case EditIndividual(index, field, value) => f.(inmates := SetIndividualField(f.inmates, index, field, value))
    case Add => AddInmate(f)
    case Remove(index) => RemoveInmate(f, index)
  }

  /** The state after a sequence of actions, or `None` when one of them is
      not offered at the point it comes. */
  function Run(f: FormState, events: seq<Event>): Option<FormState>
    decreases |events|
  {
    if events == [] then Some(f)
    else if Offered(f, events[0]) then Run(Step(f, events[0]), events[1..])
    else None
  }

  /** What the page keeps true of its state: at least one row, and each flag
      "yes" or "no". */
  predicate Invariant(f: FormState) {
    |f.inmates| >= 1 &&
    (f.healthcare == "yes" || f.healthcare == "no") &&
    (f.mentalHealth == "yes" || f.mentalHealth == "no") &&
    (f.restrictiveHousing == "yes" || f.restrictiveHousing == "no")
  }

  /** Every offered action keeps the invariant. */
  lemma StepKeepsInvariant(f: FormState, e: Event)
    requires Invariant(f) && Offered(f, e)
    ensures Invariant(Step(f, e))
  {
    match e
    case Edit(name, value) =>
      var r := HandleChange(f, name, value);
      assert Get(r, Healthcare) == (if name == Healthcare then value else f.healthcare);
      assert Get(r, MentalHealth) == (if name == MentalHealth then value else f.mentalHealth);
      assert Get(r, RestrictiveHousing) == (if name == RestrictiveHousing then value else f.restrictiveHousing);
    case EditIndividual(_, _, _) =>
    case Add =>
    case Remove(_) =>
  }

  /** Starting from a state that keeps the invariant, any sequence of offered
      actions ends in one that keeps it. */
  lemma {:induction false} RunKeepsInvariant(f: FormState, events: seq<Event>)
    requires Invariant(f)
    ensures Run(f, events).Some? ==> Invariant(Run(f, events).value)
    decreases |events|
  {
    if events != [] && Offered(f, events[0]) {
      StepKeepsInvariant(f, events[0]);
      RunKeepsInvariant(Step(f, events[0]), events[1..]);
    }
  }

  /** Every state a user can reach from the start keeps the invariant: the
      list of rows never becomes empty and the flags stay "yes" or "no". */
  lemma ReachableKeepsInvariant(events: seq<Event>)
    ensures Run(InitialForm, events).Some? ==> Invariant(Run(InitialForm, events).value)
  {
    RunKeepsInvariant(InitialForm, events);
  }

  // ---------------------------------------------------------------------
  // The form as the server receives it
  // ---------------------------------------------------------------------

  /** `JSON.stringify(formData)` as the server parses it back: every member
      present and a string. */
  function ToSubmission(f: FormState): (s: Server.Submission)
    ensures s.inmates.Some? && |s.inmates.value| == |f.inmates|
    ensures forall i :: 0 <= i < |f.inmates| ==>
      s.inmates.value[i] == Server.Inmate(Server.Str(f.inmates[i].name), Server.Str(f.inmates[i].id))
  {
    Server.Submission(
      Server.Str(f.officerName), Server.Str(f.badgeNumber), Server.Str(f.assignedArea),
      Server.Str(f.incidentTime), Server.Str(f.incidentDetails),
      Server.Str(f.healthcare), Server.Str(f.mentalHealth), Server.Str(f.restrictiveHousing),
      Some(seq(|f.inmates|, i requires 0 <= i < |f.inmates| =>
        Server.Inmate(Server.Str(f.inmates[i].name), Server.Str(f.inmates[i].id)))))
  }

  /** The start state is rejected by the server. */
  lemma InitialFormRejected()
    ensures Server.Rejects(ToSubmission(InitialForm))
  {
  }

  /** A form the page can reach is rejected by the server exactly when one of
      its five text fields is empty: the rows are never missing. */
  lemma ReachableRejectedIff(events: seq<Event>)
    requires Run(InitialForm, events).Some?
    ensures var f := Run(InitialForm, events).value;
      Server.Rejects(ToSubmission(f)) <==>
        f.officerName == "" || f.badgeNumber == "" || f.assignedArea == "" ||
        f.incidentTime == "" || f.incidentDetails == ""
  {
    ReachableKeepsInvariant(events);
  }

  /** On a reachable form each flag is "yes" exactly when it is not "no", so
      each conditional sentence appears exactly when its select is not left
      at "no". */
  lemma ReachableFlagsDecide(events: seq<Event>)
    requires Run(InitialForm, events).Some?
    ensures var s := ToSubmission(Run(InitialForm, events).value);
      (Server.IsYes(s.healthcare) <==> s.healthcare != Server.Str("no")) &&
      (Server.IsYes(s.mentalHealth) <==> s.mentalHealth != Server.Str("no")) &&
      (Server.IsYes(s.restrictiveHousing) <==> s.restrictiveHousing != Server.Str("no"))
  {
    ReachableKeepsInvariant(events);
  }
}
