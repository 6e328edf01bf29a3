/**
 * The patient record schema: the seven required fields of a `Patient` and the
 * field constraints the schema layer checks before a request handler ever sees
 * the record.  A record that passes validation is a value of the subset type
 * `Patient`; everything downstream takes only such values.
 */
module PatientRecord {

  datatype Result<+T, +E> = Ok(value: T) | Err(error: E)

  /** A patient record as it arrives, before any constraint is checked. */
  datatype RawPatient = RawPatient(
    id: string,
    name: string,
    city: string,
    age: int,
    gender: string,
    height: real,   // metres
    weight: real    // kilograms
  )

  /** The fields that carry a constraint, in declaration order. */
  datatype Field = Age | Gender | Height | Weight

  /** The three values the gender literal admits. */
  predicate IsGender(g: string) {
    g == "male" || g == "female" || g == "other"
  }

  /** Whether field `f` of `r` satisfies its constraint. */
  predicate FieldOk(r: RawPatient, f: Field) {
    match f
    case Age => 0 < r.age < 120
    case Gender => IsGender(r.gender)
    case Height => r.height > 0.0
    case Weight => r.weight > 0.0
  }

  /** The acceptance condition: every constrained field satisfies its constraint. */
  predicate Acceptable(r: RawPatient) {
    FieldOk(r, Age) && FieldOk(r, Gender) && FieldOk(r, Height) && FieldOk(r, Weight)
  }

  /** A validated record. `id`, `name` and `city` are unconstrained strings. */
  type Patient = r: RawPatient | Acceptable(r)
    witness RawPatient("", "", "", 1, "male", 1.0, 1.0)

  /**
   * Every field whose constraint fails, in declaration order and without
   * repetition: validation reports all offending fields, not only the first.
   */
  function Violations(r: RawPatient): (errs: seq<Field>)
    ensures forall f :: f in errs <==> !FieldOk(r, f)
    ensures forall i, j :: 0 <= i < j < |errs| ==> errs[i] != errs[j]
    ensures |errs| <= 4
  {
    (if FieldOk(r, Age) then [] else [Age])
    + (if FieldOk(r, Gender) then [] else [Gender])
    + (if FieldOk(r, Height) then [] else [Height])
    + (if FieldOk(r, Weight) then [] else [Weight])
  }

  /**
   * Schema validation: the record itself when every constraint holds,
   * otherwise the list of offending fields.
   */
  function Validate(r: RawPatient): (res: Result<Patient, seq<Field>>)
    ensures res.Ok? <==> Acceptable(r)
    ensures res.Ok? ==> res.value == r
    ensures res.Err? ==> res.error != [] && forall f :: f in res.error <==> !FieldOk(r, f)
  {
    var errs := Violations(r);
    if errs == [] then
      assert forall f :: FieldOk(r, f);
      Ok(r)
    else Err(errs)
  }

  /** Age is checked with strict bounds on both sides: 0 and 120 are refused, 1 and 119 admitted. */
  lemma AgeBounds(r: RawPatient)
    requires IsGender(r.gender) && r.height > 0.0 && r.weight > 0.0
    ensures Validate(r).Ok? <==> 0 < r.age < 120
    ensures r.age == 0 || r.age == 120 ==> Validate(r) == Err([Age])
  {
    if !(0 < r.age < 120) {
      assert Violations(r) == [Age] + [] + [] + [];
      assert [Age] + [] + [] + [] == [Age];
    }
  }

  /** Only the three exact gender strings are admitted; any other string names the field. */
  lemma GenderIsExact(r: RawPatient)
    ensures Validate(r).Ok? ==> r.gender in {"male", "female", "other"}
    ensures !IsGender(r.gender) ==> Validate(r).Err? && Gender in Validate(r).error
  {
  }

  /** A validated record has a strictly positive height and weight, so in exact arithmetic its squared height is non-zero. */
  lemma ValidatedDimensionsPositive(r: RawPatient)
    requires Validate(r).Ok?
    ensures r.height > 0.0 && r.weight > 0.0
    ensures r.height * r.height > 0.0
  {
  }

  /** `id`, `name` and `city` play no part in acceptance; the empty string is admitted for each. */
  lemma TextFieldsUnconstrained(r: RawPatient, id: string, name: string, city: string)
    ensures Validate(r.(id := id, name := name, city := city)).Ok? <==> Validate(r).Ok?
    ensures Validate(r).Ok? ==> Validate(r.(id := "", name := "", city := "")).Ok?
  {
  }
}
