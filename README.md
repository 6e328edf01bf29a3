# Patient records service — verified model

A Dafny model of the logic inside a small patient-record HTTP service
(`main.py`). The service has three pieces of logic. The model covers all three:

- **Record validation** (`records.dfy`, module `PatientRecord`). A patient
  record has seven required fields. Only four of them are constrained:
  `0 < age < 120`, `gender` one of `male` / `female` / `other`, `height > 0`,
  `weight > 0`. `Validate` returns either the validated record, which has the
  subset type `Patient`, or every offending field in declaration order.
  `id`, `name` and `city` are unconstrained strings, and the empty string is
  accepted for each.
- **Derived fields** (`bmi.dfy`, module `BodyMassIndex`; `verdict.dfy`, module
  `WeightVerdict`). The body-mass index is `weight / height²` rounded to two
  decimal places; on an exact tie `Round2` (through `RoundHalfEven`) picks the even hundredth. The verdict classifies the
  rounded index with thresholds 18.5, 25 and 30. A value exactly on a
  threshold falls into the higher category. The lemmas cover the exact bands,
  the boundary values and monotonicity. They also show that rounding before
  classifying can only raise the verdict, and by at most the effect of half a
  hundredth.
- **Creating a record** (`storage.dfy`, module `PatientStore`). The collection
  is a `map<string, Attrs>` keyed by patient id. The stored value is the record
  without its id, plus its two derived fields. The backing file is the class
  `PatientFile`, whose whole contents are read by `Load` and replaced by
  `Save`. `CreatePatient` follows the handler step by step: load, refuse a
  known id with status 400 without saving, otherwise insert under the id, save
  and answer 201. The pure function `Create` specifies it. Lemmas about
  `Create` and about a sequence of creates (`CreateAll`) prove several things:
  - stored records are never overwritten;
  - the key set grows by exactly the new id;
  - each id is created at most once;
  - stored values stay consistent with their derived fields.

`name` and `city` are declared at `main.py:12-13` as plain `str` fields with a
description and no constraint, so the model does not require them to be
non-empty. `PatientRecord.TextFieldsUnconstrained` states that empty values are
accepted.

## Model

| member | source | states |
|---|---|---|
| PatientRecord.Violations | main.py:14-17 | a field is reported exactly when its constraint fails; no field is reported twice; at most the four constrained fields |
| PatientRecord.Validate | main.py:9-17 | a record is accepted iff 0 < age < 120, gender is male/female/other, height > 0 and weight > 0; an accepted record is returned unchanged; a rejection names exactly the failing fields and is never empty |
| PatientRecord.AgeBounds | main.py:14 | with the other fields valid, acceptance is exactly 0 < age < 120; age 0 and age 120 are rejected naming only `age` |
| PatientRecord.GenderIsExact | main.py:15 | an accepted gender is one of the three literals; any other string is rejected with `gender` among the errors |
| PatientRecord.ValidatedDimensionsPositive | main.py:16-22 | an accepted record has height > 0 and weight > 0, so in exact arithmetic the squared height that the index divides by is non-zero |
| PatientRecord.TextFieldsUnconstrained | main.py:11-13 | changing id, name or city never changes acceptance; empty strings are accepted |
| BodyMassIndex.RoundHalfEven | main.py:22 | the result is an integer within one half of the input, and it is even when the input lies exactly halfway |
| BodyMassIndex.NearestEvenUnique | main.py:22 | those two properties determine the rounded integer uniquely |
| BodyMassIndex.RoundHalfEvenMonotone | main.py:22 | rounding to an integer preserves order |
| BodyMassIndex.Round2 | main.py:22 | rounding to two places gives a whole number of hundredths within 0.005 of the input, the even hundredth on an exact tie; a non-negative input rounds to a non-negative value |
| BodyMassIndex.Round2Monotone | main.py:22 | rounding to two places preserves order |
| BodyMassIndex.Round2Exact | main.py:22 | a value that is already a whole number of hundredths is unchanged by rounding |
| BodyMassIndex.Bmi | main.py:19-23 | the index is defined for every non-zero height and lies within 0.005 of weight / height²; a positive height and weight give a non-negative index |
| BodyMassIndex.QuotientPositive | main.py:22 | a positive weight divided by a squared positive height is positive |
| BodyMassIndex.QuotientMonotone | main.py:22 | dividing by a squared non-zero height preserves order |
| BodyMassIndex.BmiMonotoneInWeight | main.py:22 | for a fixed height, a heavier record never has a smaller index |
| WeightVerdict.Label | main.py:29-36 | the verdict is always one of the four labels Underweight, Normal, Overweight, Obese |
| WeightVerdict.Classify | main.py:27-36 | Underweight iff bmi < 18.5; Normal iff 18.5 <= bmi < 25; Overweight iff 25 <= bmi < 30; Obese iff bmi >= 30 |
| WeightVerdict.LabelInjective | main.py:29-36 | two categories have the same label iff they are the same category |
| WeightVerdict.ClassifyBands | main.py:29-36 | the four bands cover every index and do not overlap; the verdict is the one category whose band holds the index |
| WeightVerdict.ClassifyBoundaries | main.py:29-36 | 18.5 gives Normal, 25 gives Overweight and 30 gives Obese |
| WeightVerdict.ClassifyMonotone | main.py:29-36 | a larger index never gives a lower category in the order Underweight < Normal < Overweight < Obese |
| WeightVerdict.RoundingShiftsVerdictUpOnly | main.py:22-36 | classifying the rounded index gives at least the category of the exact value and at most the category of the exact value plus 0.005 |
| WeightVerdict.RecordVerdict | main.py:25-36 | a record's verdict lies between the categories of weight / height² and of that quotient plus 0.005 |
| WeightVerdict.VerdictMonotoneInWeight | main.py:22-36 | for a fixed height, a heavier record never gets a lower verdict |
| PatientStore.Dump | main.py:73 | the stored value together with the id rebuilds the original record, and its index and verdict are the record's `Bmi` and `RecordVerdict`, and the stored index is non-negative |
| PatientStore.DumpForgetsId | main.py:73 | the stored value does not depend on the id |
| PatientStore.Create | main.py:63-77 | a known id gives 400 "Patient already exists" and an untouched collection; a fresh id gives 201 "Patient created successfully", and the keys become the old keys plus the id, the size grows by one, and the new key maps to the record without its id; every old entry keeps its key and value |
| PatientStore.CreatePreservesWellFormed | main.py:73 | if every stored value is well formed, it stays so after a create |
| PatientStore.RepeatedCreateRefused | main.py:69-70 | repeating a create is refused with 400 and leaves the collection as the first create left it |
| PatientStore.CreateAll | main.py:62-77 | serving a sequence of create requests gives one response per request and keeps every entry stored before the first request |
| PatientStore.CreateAllNeverOverwrites | main.py:69-75 | after any sequence of creates, the key set is exactly the old keys plus the requested ids |
| PatientStore.FirstFreshShift | main.py:69-73 | after one create, a later request's id is new to the table and to earlier requests exactly when it was so before that create |
| PatientStore.CreateAllFirstValue | main.py:69-73 | after a sequence of creates, a new id maps to the stored value of the first request that named it |
| PatientStore.CreateAllFirstWins | main.py:69-77 | request i gets 201 exactly when its id was not stored before and was not requested earlier in the sequence |
| PatientStore.PatientFile.Load | main.py:38-42 | loading returns the whole stored collection |
| PatientStore.PatientFile.Save | main.py:44-46 | saving replaces the whole stored collection with the given one |
| PatientStore.CreatePatient | main.py:62-77 | the handler's response and the file's new contents are those of `Create` on the old contents; on a known id the file is not touched |
| PatientStore.FirstCreateThenDuplicate | main.py:9-77 | the record P001/Asha/Pune/30/female/1.6 m/55 kg is valid, has index 21.48 and verdict Normal, is created with 201, and a repeat is refused with the collection unchanged |

## Left out

- Arithmetic is exact over `real`. IEEE-754 doubles are not modelled: the representation error of inputs such as 1.6 and the inexact division are out of scope. `Round2` rounds the exact quotient, half to even, which is the language's documented rule for `round(x, 2)`. Near a tie the float version can differ from it by one hundredth. Where floats overflow, they can also give infinity: with a tiny height and a large weight, `weight / height**2` is infinity and the verdict is Obese.
- PatientStore.Create: does not model the float failures of the index. A height below about 1e-162 makes `height**2` underflow to 0.0, and the division at main.py:22 raises ZeroDivisionError. A height above about 1.34e154 makes `height**2` raise OverflowError. Both errors happen while the record is serialised at main.py:73. The request then ends in a server error, and `save_data` at main.py:75 never runs, so the file is unchanged. In the model, such a record is valid and `Create` stores it with 201.
- Schema coercion is not modelled: strings such as `"30"` turned into numbers, integers accepted as floats, missing or mistyped fields, NaN and infinity. The model takes typed fields and checks only the value constraints. Validation failures reach the caller as a framework error response before the handler runs, and that response's format is not modelled.
- JSON parsing and file I/O in `load_data`/`save_data` (main.py:38-46) are modelled as reading and replacing an in-memory map. A missing or malformed file, which raises an error, is not modelled. The loaded map may hold anything, so `WellFormed` is proved preserved, not assumed.
- The stored value includes the two computed fields (`bmi`, `verdict`), because model_dump serialises computed fields. Which keys the real serialiser writes is decided by the framework, not by this code.
- The routes `hello`, `info` and `view` (main.py:49-60) return constants or the loaded file and carry no logic.
- Concurrent requests are not modelled: each create's load, modify and save sequence is unsynchronised, and two overlapping creates can lose one update. `CreateAll` models requests served one after another.
- HTTP routing, status-code transport and the exception mechanism are left out: the 400 refusal is modelled as a returned `Response`, not a raised exception.
