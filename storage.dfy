/**
 * The record collection and the create operation.  The collection is one
 * keyed mapping from patient id to the record's remaining attributes; the
 * backing file is modelled as an object whose whole contents are read and
 * replaced at once.
 */
module PatientStore {
  import opened PatientRecord
  import BodyMassIndex
  import WeightVerdict

  /**
   * The stored value for one record: every attribute except the id, together
   * with the two derived fields as they were when the record was written.
   */
  datatype Attrs = Attrs(
    name: string,
    city: string,
    age: int,
    gender: string,
    height: real,
    weight: real,
    bmi: real,
    verdict: string
  )

  datatype Response = Response(status: int, message: string)

  const Created := Response(201, "Patient created successfully")
  const Conflict := Response(400, "Patient already exists")

  /** The record rebuilt from its key and its stored value. */
  function Restore(id: string, a: Attrs): RawPatient {
    RawPatient(id, a.name, a.city, a.age, a.gender, a.height, a.weight)
  }

  /** A stored value that a validated record produces: valid attributes and derived fields that agree with them. */
  predicate WellFormed(a: Attrs) {
    && Acceptable(Restore("", a))
    && a.bmi == BodyMassIndex.Bmi(a.height, a.weight)
    && a.verdict == WeightVerdict.Label(WeightVerdict.RecordVerdict(a.height, a.weight))
  }

  /** The record serialised without its id; the derived fields are included. */
  function Dump(p: Patient): (a: Attrs)
    ensures Restore(p.id, a) == p
    ensures WellFormed(a)
    ensures a.bmi >= 0.0
  {
    Attrs(p.name, p.city, p.age, p.gender, p.height, p.weight,
          BodyMassIndex.Bmi(p.height, p.weight),
          WeightVerdict.Label(WeightVerdict.RecordVerdict(p.height, p.weight)))
  }

  /** The stored value does not depend on the id: two records that differ only in id store the same value. */
  lemma DumpForgetsId(p: Patient, q: Patient)
    requires p.(id := "") == q.(id := "")
    ensures Dump(p) == Dump(q)
  {
  }

  datatype Outcome = Outcome(response: Response, table: map<string, Attrs>)

  /**
   * One create request against the collection `table`: refused when the id is
   * already a key, otherwise the collection gains exactly the new entry.
   */
  function Create(table: map<string, Attrs>, p: Patient): (out: Outcome)
    ensures out.response == Conflict || out.response == Created
    ensures out.response.status == 400 <==> p.id in table
    ensures out.response.status == 201 <==> p.id !in table
    ensures p.id in table ==> out.table == table
    ensures p.id !in table ==> && out.table.Keys == table.Keys + {p.id}
                               && |out.table| == |table| + 1
                               && out.table[p.id] == Dump(p)
    ensures forall k :: k in table ==> k in out.table && out.table[k] == table[k]
  {
    if p.id in table then Outcome(Conflict, table)
    else Outcome(Created, table[p.id := Dump(p)])
  }

  /** Creating keeps a collection of well-formed values well-formed. */
  lemma CreatePreservesWellFormed(table: map<string, Attrs>, p: Patient)
    requires forall k :: k in table ==> WellFormed(table[k])
    ensures forall k :: k in Create(table, p).table ==> WellFormed(Create(table, p).table[k])
  {
  }

  /** Repeating a create that succeeded is refused and leaves the collection as the first create left it. */
  lemma RepeatedCreateRefused(table: map<string, Attrs>, p: Patient)
    ensures Create(Create(table, p).table, p) == Outcome(Conflict, Create(table, p).table)
  {
  }

  datatype Replay = Replay(responses: seq<Response>, table: map<string, Attrs>)

  /** A sequence of create requests served one after another. */
  function CreateAll(table: map<string, Attrs>, ps: seq<Patient>): (r: Replay)
    ensures |r.responses| == |ps|
    ensures forall k :: k in table ==> k in r.table && r.table[k] == table[k]
    decreases |ps|
  {
    if ps == [] then Replay([], table)
    else
      var first := Create(table, ps[0]);
      var rest := CreateAll(first.table, ps[1..]);
      Replay([first.response] + rest.responses, rest.table)
  }

  /** The set of ids named by a sequence of requests. */
  function Ids(ps: seq<Patient>): (ids: set<string>)
    ensures forall i :: 0 <= i < |ps| ==> ps[i].id in ids
    ensures forall id :: id in ids ==> exists i :: 0 <= i < |ps| && ps[i].id == id
  {
    set i | 0 <= i < |ps| :: ps[i].id
  }

  /**
   * After any sequence of requests the keys are exactly the old keys plus the
   * ids requested; with `CreateAll`'s own guarantee that old entries are kept,
   * no create ever overwrites a stored record.
   */
  lemma {:induction false} CreateAllNeverOverwrites(table: map<string, Attrs>, ps: seq<Patient>)
    ensures CreateAll(table, ps).table.Keys == table.Keys + Ids(ps)
    decreases |ps|
  {
    if ps != [] {
      var next := Create(table, ps[0]).table;
      assert CreateAll(table, ps).table == CreateAll(next, ps[1..]).table;
      CreateAllNeverOverwrites(next, ps[1..]);
      IdsCons(ps);
    }
  }

  /** Request `i` names an id that is neither stored in `table` nor named by an earlier request. */
  predicate FirstFresh(table: map<string, Attrs>, ps: seq<Patient>, i: nat)
    requires i < |ps|
  {
    ps[i].id !in table && forall j :: 0 <= j < i ==> ps[j].id != ps[i].id
  }

  /**
   * Serving the first request moves its id into the table, so a later request
   * is first-fresh against the original table exactly when it is first-fresh
   * among the remaining requests against the updated table.
   */
  lemma FirstFreshShift(table: map<string, Attrs>, ps: seq<Patient>, i: nat)
    requires 0 < i < |ps|
    ensures FirstFresh(table, ps, i) <==> FirstFresh(Create(table, ps[0]).table, ps[1..], i - 1)
  {
    var id := ps[i].id;
    var next := Create(table, ps[0]).table;
    assert ps[1..][i - 1] == ps[i];
    assert id in next <==> id in table || id == ps[0].id;
    forall j | 1 <= j < i ensures ps[1..][j - 1] == ps[j] { }
  }

  /**
   * The value stored under a new id is the record of the first request that
   * named it; later requests with the same id leave it as it is.
   */
  lemma {:induction false} CreateAllFirstValue(table: map<string, Attrs>, ps: seq<Patient>, i: nat)
    requires i < |ps| && FirstFresh(table, ps, i)
    ensures ps[i].id in CreateAll(table, ps).table
    ensures CreateAll(table, ps).table[ps[i].id] == Dump(ps[i])
    decreases |ps|
  {
    var next := Create(table, ps[0]).table;
    assert CreateAll(table, ps).table == CreateAll(next, ps[1..]).table;
    if i == 0 {
      assert next[ps[0].id] == Dump(ps[0]);
    } else {
      FirstFreshShift(table, ps, i);
      assert ps[1..][i - 1] == ps[i];
      CreateAllFirstValue(next, ps[1..], i - 1);
    }
  }

  /** The ids of a non-empty sequence are its first id and the ids of the rest. */
  lemma IdsCons(ps: seq<Patient>)
    requires ps != []
    ensures Ids(ps) == {ps[0].id} + Ids(ps[1..])
  {
    forall id | id in Ids(ps) ensures id in {ps[0].id} + Ids(ps[1..]) {
      var i :| 0 <= i < |ps| && ps[i].id == id;
      if i > 0 { assert ps[1..][i - 1].id == id; }
    }
  }

  /**
   * Request `i` in a sequence succeeds exactly when its id was neither stored
   * before nor requested earlier in the sequence: each id is created at most once.
   */
  lemma {:induction false} CreateAllFirstWins(table: map<string, Attrs>, ps: seq<Patient>, i: nat)
    requires i < |ps|
    ensures CreateAll(table, ps).responses[i] == Created <==> FirstFresh(table, ps, i)
    decreases |ps|
  {
    var first := Create(table, ps[0]);
    var rest := CreateAll(first.table, ps[1..]);
    assert CreateAll(table, ps).responses == [first.response] + rest.responses;
    if i > 0 {
      assert CreateAll(table, ps).responses[i] == rest.responses[i - 1];
      CreateAllFirstWins(first.table, ps[1..], i - 1);
      FirstFreshShift(table, ps, i);
    }
  }

  /**
   * The backing file: one mapping from id to stored value that is read and
   * overwritten as a whole.
   */
  class PatientFile {
    var contents: map<string, Attrs>

    constructor (initial: map<string, Attrs>)
      ensures contents == initial
    {
      contents := initial;
    }

    /** Reads the whole collection. */
    method Load() returns (data: map<string, Attrs>)
      ensures data == contents
    {
      data := contents;
    }

    /** Replaces the whole collection. */
    method Save(data: map<string, Attrs>)
      modifies this
      ensures contents == data
    {
      contents := data;
    }
  }

  /**
   * The create handler: load the collection, refuse a known id without saving,
   * otherwise insert the record's stored value under its id and save.
   */
  method CreatePatient(file: PatientFile, p: Patient) returns (response: Response)
    modifies file
    ensures response == Create(old(file.contents), p).response
    ensures file.contents == Create(old(file.contents), p).table
    ensures p.id in old(file.contents) ==> unchanged(file)
  {
    var data := file.Load();
    if p.id in data {
      return Conflict;
    }
    data := data[p.id := Dump(p)];
    file.Save(data);
    return Created;
  }

  /**
   * The worked example: a first create of P001 succeeds with index 21.48 and
   * verdict Normal; repeating it is refused and changes nothing.
   */
  lemma FirstCreateThenDuplicate(table: map<string, Attrs>)
    requires "P001" !in table
    ensures var p := RawPatient("P001", "Asha", "Pune", 30, "female", 1.6, 55.0);
            && Validate(p).Ok?
            && BodyMassIndex.Bmi(p.height, p.weight) == 21.48
            && WeightVerdict.Classify(BodyMassIndex.Bmi(p.height, p.weight)) == WeightVerdict.Normal
            && Create(table, p).response == Created
            && Create(Create(table, p).table, p) == Outcome(Conflict, Create(table, p).table)
  {
    var p := RawPatient("P001", "Asha", "Pune", 30, "female", 1.6, 55.0);
    assert 55.0 / (1.6 * 1.6) == 21.484375;
    assert 21.484375 * 100.0 == 2148.4375;
    assert (2148.4375).Floor == 2148;
    assert BodyMassIndex.RoundHalfEven(2148.4375) == 2148;
  }
}
