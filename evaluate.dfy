/** The evaluation engine: ground-truth and output records joined on their
    ids, compared field by field with type-dependent rules, and counted per
    field and overall. */
module Evaluate {
  import opened Json
  import opened Builtins
  import opened Sequences

  /** `EVALUATED_FIELDS` */
  const EvaluatedFields: seq<string> := [
    "product_line",
    "origin_port_code",
    "origin_port_name",
    "destination_port_code",
    "destination_port_name",
    "incoterm",
    "cargo_weight_kg",
    "cargo_cbm",
    "is_dangerous"
  ]

  /** One item of a ground-truth or output list: its `id` and the other keys. */
  datatype Record = Record(id: string, fields: JsonObject)

  // ---------------------------------------------------------------------------
  // The comparator
  // ---------------------------------------------------------------------------

  /** `_compare_values`. Python tests `isinstance(v, (int, float))` before
      `isinstance(v, bool)`, and a `bool` is an `int`, so two booleans are
      compared as numbers and the boolean branch is never taken. */
  function CompareValues(gtValue: Value, outValue: Value, fieldName: string): (r: bool)
    ensures gtValue.Null? && outValue.Null? ==> r
    ensures gtValue.Null? != outValue.Null? ==> !r
    ensures gtValue.Str? && outValue.Str? ==>
      (r <==> Lower(Strip(gtValue.s)) == Lower(Strip(outValue.s)))
    ensures gtValue.IsNumber() && outValue.IsNumber() ==>
      (r <==> Round2(gtValue.AsReal()) == Round2(outValue.AsReal()))
    ensures gtValue.Str? != outValue.Str? ==> !r
  {
    if gtValue.Null? && outValue.Null? then true
    else if gtValue.Null? || outValue.Null? then false
    else if gtValue.Str? && outValue.Str? then Lower(Strip(gtValue.s)) == Lower(Strip(outValue.s))
    else if gtValue.IsNumber() && outValue.IsNumber() then
      Round2(gtValue.AsReal()) == Round2(outValue.AsReal())
    else if gtValue.Bool? && outValue.Bool? then gtValue == outValue
    else gtValue == outValue
  }

  /** What the comparator looks at in a value: nothing for null, the trimmed
      lower-cased text of a string, the rounded value of a number. */
  datatype Key = NullKey | TextKey(text: string) | NumberKey(amount: real)

  function KeyOf(v: Value): Key {
    match v
    case Null => NullKey
    case Str(s) => TextKey(Lower(Strip(s)))
    case _ => NumberKey(Round2(v.AsReal()))
  }

  /** Two values compare equal exactly when their keys are equal; so the
      comparator is reflexive, symmetric and transitive, and the field name
      plays no part. */
  lemma CompareIsKeyEquality(a: Value, b: Value, fieldName: string)
    ensures CompareValues(a, b, fieldName) <==> KeyOf(a) == KeyOf(b)
  {
  }

  lemma CompareSymmetric(a: Value, b: Value, fieldName: string)
    ensures CompareValues(a, b, fieldName) == CompareValues(b, a, fieldName)
  {
    CompareIsKeyEquality(a, b, fieldName);
    CompareIsKeyEquality(b, a, fieldName);
  }

  lemma CompareReflexive(a: Value, fieldName: string)
    ensures CompareValues(a, a, fieldName)
  {
    CompareIsKeyEquality(a, a, fieldName);
  }

  lemma CompareTransitive(a: Value, b: Value, c: Value, fieldName: string)
    requires CompareValues(a, b, fieldName) && CompareValues(b, c, fieldName)
    ensures CompareValues(a, c, fieldName)
  {
    CompareIsKeyEquality(a, b, fieldName);
    CompareIsKeyEquality(b, c, fieldName);
    CompareIsKeyEquality(a, c, fieldName);
  }

  /** Numbers that round to the same two decimals match (500.0 and 500.004),
      ones that do not are told apart (5.0 and 5.01), and `true` matches `1`. */
  lemma NumberExamples()
    ensures CompareValues(Float(500.0), Float(500.004), "cargo_weight_kg")
    ensures !CompareValues(Float(5.0), Float(5.01), "cargo_cbm")
    ensures CompareValues(Bool(true), Int(1), "is_dangerous")
    ensures !CompareValues(Bool(true), Bool(false), "is_dangerous")
  {
    Round2Fixes(500.0);
    Round2Fixes(5.0);
    Round2Fixes(5.01);
    Round2Fixes(1.0);
    Round2Fixes(0.0);
    assert RoundHalfEven(500.004 * 100.0) == 50000;
  }

  /** A value and a string never match, whatever the text says. */
  lemma StringNeverMatchesNumber(s: string, v: Value, fieldName: string)
    requires v.IsNumber()
    ensures !CompareValues(Str(s), v, fieldName)
  {
  }

  // ---------------------------------------------------------------------------
  // Lookups by id
  // ---------------------------------------------------------------------------

  function Ids(items: seq<Record>): (r: seq<string>)
    ensures |r| == |items|
    ensures forall i :: 0 <= i < |items| ==> r[i] == items[i].id
  {
    seq(|items|, i requires 0 <= i < |items| => items[i].id)
  }

  /** `{item['id']: item for item in items}`: one entry per id of the list. */
  function Lookup(items: seq<Record>): (m: map<string, Record>)
    ensures forall id :: id in m <==> id in Ids(items)
    ensures forall id :: id in m ==> m[id].id == id
  {
    if items == [] then map[]
    else
      var init := items[..|items| - 1];
      var last := items[|items| - 1];
      assert Ids(items) == Ids(init) + [last.id];
      Lookup(init)[last.id := last]
  }

  /** When an id occurs several times, the last item carrying it wins. */
  lemma {:induction false} LookupLastWins(items: seq<Record>, i: nat)
    requires i < |items|
    requires forall j :: i < j < |items| ==> items[j].id != items[i].id
    ensures Lookup(items)[items[i].id] == items[i]
  {
    var init := items[..|items| - 1];
    if i < |items| - 1 {
      LookupLastWins(init, i);
    }
  }

  // ---------------------------------------------------------------------------
  // Scoring
  // ---------------------------------------------------------------------------

  /** The output is right about `field` for ground-truth id `id`: it has an
      item with that id, and the two values compare equal. */
  predicate IsCorrect(gtLookup: map<string, Record>, outLookup: map<string, Record>, id: string, field: string)
    requires id in gtLookup
  {
    id in outLookup && CompareValues(Get(gtLookup[id].fields, field), Get(outLookup[id].fields, field), field)
  }

  predicate AllKnown(gtLookup: map<string, Record>, ids: seq<string>) {
    forall id :: id in ids ==> id in gtLookup
  }

  /** The ids, in order, for which the output is wrong about `field`. */
  function Mismatches(gtLookup: map<string, Record>, outLookup: map<string, Record>,
                      ids: seq<string>, field: string): (r: seq<string>)
    requires AllKnown(gtLookup, ids)
    ensures forall id :: id in r <==> id in ids && !IsCorrect(gtLookup, outLookup, id, field)
    ensures NoDuplicates(ids) ==> NoDuplicates(r)
  {
    if ids == [] then []
    else
      var init := ids[..|ids| - 1];
      var id := ids[|ids| - 1];
      assert ids == init + [id];
      var m := Mismatches(gtLookup, outLookup, init, field);
      if IsCorrect(gtLookup, outLookup, id, field) then m else m + [id]
  }

  /** How many of the ids the output is right about for `field`. */
  function CorrectCount(gtLookup: map<string, Record>, outLookup: map<string, Record>,
                        ids: seq<string>, field: string): (n: nat)
    requires AllKnown(gtLookup, ids)
    ensures n + |Mismatches(gtLookup, outLookup, ids, field)| == |ids|
  {
    if ids == [] then 0
    else
      var init := ids[..|ids| - 1];
      assert AllKnown(gtLookup, init);
      CorrectCount(gtLookup, outLookup, init, field)
        + (if IsCorrect(gtLookup, outLookup, ids[|ids| - 1], field) then 1 else 0)
  }

  /** The incorrect ids follow the order of the ids scored. */
  lemma {:induction false} MismatchesInOrder(gtLookup: map<string, Record>, outLookup: map<string, Record>,
                                             ids: seq<string>, field: string)
    requires AllKnown(gtLookup, ids)
    ensures IsSubsequence(Mismatches(gtLookup, outLookup, ids, field), ids)
  {
    if ids != [] {
      var init := ids[..|ids| - 1];
      var id := ids[|ids| - 1];
      assert AllKnown(gtLookup, init);
      MismatchesInOrder(gtLookup, outLookup, init, field);
      var m := Mismatches(gtLookup, outLookup, init, field);
      assert init + [id] == ids;
      if IsCorrect(gtLookup, outLookup, id, field) {
        SubsequenceExtend(m, init, id);
      } else {
        SubsequenceAppend(m, init, id);
      }
    }
  }

  /** Output items whose id is not among the ids scored change no count: two
      outputs that agree on those ids score the same. */
  lemma {:induction false} OutputOnlyIdsIgnored(gtLookup: map<string, Record>, out1: map<string, Record>,
                                                out2: map<string, Record>, ids: seq<string>, field: string)
    requires AllKnown(gtLookup, ids)
    requires forall id :: id in ids ==> (id in out1 <==> id in out2) && (id in out1 ==> out1[id] == out2[id])
    ensures Mismatches(gtLookup, out1, ids, field) == Mismatches(gtLookup, out2, ids, field)
    ensures CorrectCount(gtLookup, out1, ids, field) == CorrectCount(gtLookup, out2, ids, field)
  {
    if ids != [] {
      var init := ids[..|ids| - 1];
      assert AllKnown(gtLookup, init);
      OutputOnlyIdsIgnored(gtLookup, out1, out2, init, field);
      assert ids[|ids| - 1] in ids;
    }
  }

  /** An output that is right about `field` for every scored id has no
      mismatch and a full count. */
  lemma {:induction false} AllCorrect(gtLookup: map<string, Record>, outLookup: map<string, Record>,
                                      ids: seq<string>, field: string)
    requires AllKnown(gtLookup, ids)
    requires forall id :: id in ids ==> IsCorrect(gtLookup, outLookup, id, field)
    ensures Mismatches(gtLookup, outLookup, ids, field) == []
    ensures CorrectCount(gtLookup, outLookup, ids, field) == |ids|
  {
    if ids != [] {
      var init := ids[..|ids| - 1];
      assert AllKnown(gtLookup, init);
      AllCorrect(gtLookup, outLookup, init, field);
      assert ids[|ids| - 1] in ids;
    }
  }

  /** `correct / total * 100`, or 0 when there is nothing to score. */
  function Accuracy(correct: nat, total: nat): (r: real)
    ensures total == 0 ==> r == 0.0
    ensures total > 0 ==> r * (total as real) == (correct as real) * 100.0
    ensures correct <= total ==> 0.0 <= r <= 100.0
    ensures 0 < total == correct ==> r == 100.0
  {
    if total > 0 then correct as real / total as real * 100.0 else 0.0
  }

  /** The scores of one field: `evaluate_field`'s triple and its accuracy. */
  datatype FieldMetrics = FieldMetrics(correct: nat, total: nat, accuracy: real, incorrectIds: seq<string>)

  datatype OverallMetrics = OverallMetrics(correct: nat, total: nat, accuracy: real)

  /** `evaluate_all`'s dictionary: an entry per evaluated field, and the
      `overall` entry kept apart. */
  datatype Report = Report(perField: map<string, FieldMetrics>, overall: OverallMetrics)

  function FieldScore(gtLookup: map<string, Record>, outLookup: map<string, Record>,
                      ids: seq<string>, field: string): FieldMetrics
    requires AllKnown(gtLookup, ids)
  {
    var correct := CorrectCount(gtLookup, outLookup, ids, field);
    FieldMetrics(correct, |ids|, Accuracy(correct, |ids|), Mismatches(gtLookup, outLookup, ids, field))
  }

  /** The per-field entries of `evaluate_all` after scoring `fields`. */
  function FieldScores(gtLookup: map<string, Record>, outLookup: map<string, Record>,
                       ids: seq<string>, fields: seq<string>): map<string, FieldMetrics>
    requires AllKnown(gtLookup, ids)
  {
    if fields == [] then map[]
    else
      var last := fields[|fields| - 1];
      FieldScores(gtLookup, outLookup, ids, fields[..|fields| - 1])[last := FieldScore(gtLookup, outLookup, ids, last)]
  }

  /** There is an entry for each scored field and for nothing else, and each
      entry is that field's own score. */
  lemma {:induction false} FieldScoresSpec(gtLookup: map<string, Record>, outLookup: map<string, Record>,
                                           ids: seq<string>, fields: seq<string>)
    requires AllKnown(gtLookup, ids)
    ensures forall f :: f in FieldScores(gtLookup, outLookup, ids, fields) <==> f in fields
    ensures forall f :: f in FieldScores(gtLookup, outLookup, ids, fields) ==>
      FieldScores(gtLookup, outLookup, ids, fields)[f] == FieldScore(gtLookup, outLookup, ids, f)
  {
    if fields != [] {
      var init := fields[..|fields| - 1];
      FieldScoresSpec(gtLookup, outLookup, ids, init);
      assert fields == init + [fields[|fields| - 1]];
    }
  }

  /** The correct counts of `fields`, added up. */
  function TotalCorrect(gtLookup: map<string, Record>, outLookup: map<string, Record>,
                        ids: seq<string>, fields: seq<string>): (n: nat)
    requires AllKnown(gtLookup, ids)
    ensures n <= |fields| * |ids|
  {
    if fields == [] then 0
    else
      var init := fields[..|fields| - 1];
      var rest := TotalCorrect(gtLookup, outLookup, ids, init);
      var last := CorrectCount(gtLookup, outLookup, ids, fields[|fields| - 1]);
      assert last <= |ids|;
      MultiplyStep(|init|, |ids|);
      rest + last
  }

  lemma MultiplyStep(a: nat, b: nat)
    ensures a * b + b == (a + 1) * b
  {
  }

  /** One more field adds its entry and its correct count to the total. */
  lemma ScoringStep(gtLookup: map<string, Record>, outLookup: map<string, Record>,
                         ids: seq<string>, fields: seq<string>, k: nat)
    requires AllKnown(gtLookup, ids)
    requires k < |fields|
    ensures TotalCorrect(gtLookup, outLookup, ids, fields[..k + 1])
      == TotalCorrect(gtLookup, outLookup, ids, fields[..k]) + CorrectCount(gtLookup, outLookup, ids, fields[k])
    ensures FieldScores(gtLookup, outLookup, ids, fields[..k + 1])
      == FieldScores(gtLookup, outLookup, ids, fields[..k])[fields[k] := FieldScore(gtLookup, outLookup, ids, fields[k])]
  {
    assert fields[..k + 1][..k] == fields[..k];
  }

  lemma EvaluatedFieldsDistinct()
    ensures |EvaluatedFields| == 9
    ensures NoDuplicates(EvaluatedFields)
  {
  }

  class ExtractionEvaluator {
    /** `gt_lookup`, its keys in insertion order, and `out_lookup`. */
    const gtLookup: map<string, Record>
    const gtIds: seq<string>
    const outLookup: map<string, Record>

    /** The ground-truth ids are exactly the keys of the ground-truth lookup,
        each once. */
    predicate Valid() {
      && (forall id :: id in gtIds ==> id in gtLookup)
      && (forall id :: id in gtLookup ==> id in gtIds)
      && NoDuplicates(gtIds)
    }

    constructor(groundTruth: seq<Record>, output: seq<Record>)
      ensures Valid()
      ensures gtLookup == Lookup(groundTruth) && outLookup == Lookup(output)
      ensures gtIds == Dedup(Ids(groundTruth))
    {
      var gt, keys := BuildLookup(groundTruth);
      var out, _ := BuildLookup(output);
      gtLookup := gt;
      gtIds := keys;
      outLookup := out;
    }

    /** The dictionary comprehension by id, and the order of its keys: each
        id where it first occurs. */
    static method BuildLookup(items: seq<Record>) returns (lookup: map<string, Record>, keys: seq<string>)
      ensures lookup == Lookup(items)
      ensures keys == Dedup(Ids(items))
      ensures forall id :: id in keys <==> id in lookup
    {
      lookup := map[];
      keys := [];
      for i := 0 to |items|
        invariant lookup == Lookup(items[..i])
        invariant keys == Dedup(Ids(items[..i]))
      {
        var item := items[i];
        LookupStep(items, i);
        if item.id !in lookup {
          keys := keys + [item.id];
        }
        lookup := lookup[item.id := item];
      }
      assert items[..|items|] == items;
    }

    static lemma LookupStep(items: seq<Record>, i: nat)
      requires i < |items|
      ensures Lookup(items[..i + 1]) == Lookup(items[..i])[items[i].id := items[i]]
      ensures Dedup(Ids(items[..i + 1])) ==
        if items[i].id in Lookup(items[..i]) then Dedup(Ids(items[..i]))
        else Dedup(Ids(items[..i])) + [items[i].id]
    {
      assert items[..i + 1][..i] == items[..i];
      assert Ids(items[..i + 1])[..i] == Ids(items[..i]);
    }

    /** `evaluate_field`: every ground-truth id is scored once, in order; an
        id missing from the output is incorrect. */
    method EvaluateField(fieldName: string) returns (correct: nat, total: nat, incorrectIds: seq<string>)
      requires Valid()
      ensures total == |gtIds|
      ensures incorrectIds == Mismatches(gtLookup, outLookup, gtIds, fieldName)
      ensures correct == CorrectCount(gtLookup, outLookup, gtIds, fieldName)
      ensures correct + |incorrectIds| == total
      ensures NoDuplicates(incorrectIds)
    {
      correct := 0;
      total := 0;
      incorrectIds := [];
      for i := 0 to |gtIds|
        invariant AllKnown(gtLookup, gtIds[..i])
        invariant total == i
        invariant incorrectIds == Mismatches(gtLookup, outLookup, gtIds[..i], fieldName)
        invariant correct == CorrectCount(gtLookup, outLookup, gtIds[..i], fieldName)
      {
        var emailId := gtIds[i];
        assert gtIds[..i + 1][..i] == gtIds[..i];
        assert AllKnown(gtLookup, gtIds[..i + 1]);
        if emailId !in outLookup {
          total := total + 1;
          incorrectIds := incorrectIds + [emailId];
          continue;
        }
        var gtValue := Get(gtLookup[emailId].fields, fieldName);
        var outValue := Get(outLookup[emailId].fields, fieldName);
        total := total + 1;
        if CompareValues(gtValue, outValue, fieldName) {
          correct := correct + 1;
        } else {
          incorrectIds := incorrectIds + [emailId];
        }
      }
      assert gtIds[..|gtIds|] == gtIds;
    }

    /** `evaluate_all`: a score per evaluated field, nine entries in all, and
        overall sums over the nine fields. */
    method EvaluateAll() returns (results: Report)
      requires Valid()
      ensures forall f :: f in results.perField <==> f in EvaluatedFields
      ensures |results.perField| == 9
      ensures forall f :: f in results.perField ==>
        results.perField[f] == FieldScore(gtLookup, outLookup, gtIds, f)
      ensures results.overall.correct == TotalCorrect(gtLookup, outLookup, gtIds, EvaluatedFields)
      ensures results.overall.total == 9 * |gtIds|
      ensures results.overall.accuracy == Accuracy(results.overall.correct, results.overall.total)
      ensures 0.0 <= results.overall.accuracy <= 100.0
    {
      results := ScoreFields(EvaluatedFields);
      FieldScoresSpec(gtLookup, outLookup, gtIds, EvaluatedFields);
      EvaluatedFieldsDistinct();
      DistinctCount(EvaluatedFields);
      assert results.perField.Keys == set f | f in EvaluatedFields;
    }

    /** The loop of `evaluate_all`, over the given list of fields. */
    method ScoreFields(fields: seq<string>) returns (results: Report)
      requires Valid()
      ensures results.perField == FieldScores(gtLookup, outLookup, gtIds, fields)
      ensures results.overall.correct == TotalCorrect(gtLookup, outLookup, gtIds, fields)
      ensures results.overall.total == |fields| * |gtIds|
      ensures results.overall.accuracy == Accuracy(results.overall.correct, results.overall.total)
      ensures 0.0 <= results.overall.accuracy <= 100.0
    {
      var perField: map<string, FieldMetrics> := map[];
      var totalCorrect := 0;
      var totalFields := 0;
      for k := 0 to |fields|
        invariant perField == FieldScores(gtLookup, outLookup, gtIds, fields[..k])
        invariant totalCorrect == TotalCorrect(gtLookup, outLookup, gtIds, fields[..k])
        invariant totalFields == k * |gtIds|
      {
        var field := fields[k];
        var correct, total, incorrectIds := EvaluateField(field);
        var accuracy := Accuracy(correct, total);
        ScoringStep(gtLookup, outLookup, gtIds, fields, k);
        MultiplyStep(k, |gtIds|);
        perField := perField[field := FieldMetrics(correct, total, accuracy, incorrectIds)];
        totalCorrect := totalCorrect + correct;
        totalFields := totalFields + total;
      }
      assert fields[..|fields|] == fields;
      var overallAccuracy := Accuracy(totalCorrect, totalFields);
      results := Report(perField, OverallMetrics(totalCorrect, totalFields, overallAccuracy));
    }

    /** A ground-truth id missing from the output is counted incorrect for
        every field. */
    lemma MissingIdWrongEverywhere(id: string, field: string)
      requires Valid()
      requires id in gtLookup && id !in outLookup
      ensures id in Mismatches(gtLookup, outLookup, gtIds, field)
    {
    }
  }

  /** The output agrees with the ground truth on every field of `fields` for
      every scored id. */
  predicate AgreesOn(gtLookup: map<string, Record>, outLookup: map<string, Record>,
                     ids: seq<string>, fields: seq<string>)
    requires AllKnown(gtLookup, ids)
  {
    forall id, f :: id in ids && f in fields ==> IsCorrect(gtLookup, outLookup, id, f)
  }

  lemma {:induction false} AgreementTotal(gtLookup: map<string, Record>, outLookup: map<string, Record>,
                                          ids: seq<string>, fields: seq<string>)
    requires AllKnown(gtLookup, ids)
    requires AgreesOn(gtLookup, outLookup, ids, fields)
    ensures TotalCorrect(gtLookup, outLookup, ids, fields) == |fields| * |ids|
  {
    if fields != [] {
      var init := fields[..|fields| - 1];
      var last := fields[|fields| - 1];
      assert AgreesOn(gtLookup, outLookup, ids, init);
      AgreementTotal(gtLookup, outLookup, ids, init);
      assert last in fields;
      AllCorrect(gtLookup, outLookup, ids, last);
      MultiplyStep(|init|, |ids|);
    }
  }

  /** Every id of the ground truth is scored once per field, so the overall
      total is nine times the number of distinct ground-truth ids, and an
      output equal to the ground truth scores 100%. */
  lemma OverallScenario(groundTruth: seq<Record>)
    requires groundTruth != []
    ensures var lookup := Lookup(groundTruth);
      var ids := Dedup(Ids(groundTruth));
      AllKnown(lookup, ids) &&
      TotalCorrect(lookup, lookup, ids, EvaluatedFields) == |EvaluatedFields| * |ids| &&
      Accuracy(TotalCorrect(lookup, lookup, ids, EvaluatedFields), |EvaluatedFields| * |ids|) == 100.0
  {
    var lookup := Lookup(groundTruth);
    var ids := Dedup(Ids(groundTruth));
    assert groundTruth[0].id in Ids(groundTruth);
    assert |ids| > 0;
    forall id, f | id in ids && f in EvaluatedFields ensures IsCorrect(lookup, lookup, id, f) {
      CompareReflexive(Get(lookup[id].fields, f), f);
    }
    AgreementTotal(lookup, lookup, ids, EvaluatedFields);
  }

  /** A single email on which the output agrees with the ground truth about
      every evaluated field scores 9 out of 9, that is 100%. */
  lemma SingleEmailScenario(gtRecord: Record, outRecord: Record)
    requires gtRecord.id == outRecord.id
    requires forall f :: f in EvaluatedFields ==>
      CompareValues(Get(gtRecord.fields, f), Get(outRecord.fields, f), f)
    ensures var gt := Lookup([gtRecord]);
      var out := Lookup([outRecord]);
      AllKnown(gt, [gtRecord.id]) &&
      TotalCorrect(gt, out, [gtRecord.id], EvaluatedFields) == 9 &&
      Accuracy(TotalCorrect(gt, out, [gtRecord.id], EvaluatedFields), 9) == 100.0
  {
    var gt := Lookup([gtRecord]);
    var out := Lookup([outRecord]);
    var ids := [gtRecord.id];
    assert gt[gtRecord.id] == gtRecord && out[gtRecord.id] == outRecord;
    assert AgreesOn(gt, out, ids, EvaluatedFields);
    AgreementTotal(gt, out, ids, EvaluatedFields);
  }

  /** One email whose incoterm is written "FOB" in the ground truth and "fob"
      in the output, and whose weight is 500.0 against 500.004, with no other
      field: every field matches. */
  lemma IncotermAndWeightScenario(f: string)
    requires f in EvaluatedFields
    ensures CompareValues(Get(map["incoterm" := Str("FOB"), "cargo_weight_kg" := Float(500.0)], f),
                          Get(map["incoterm" := Str("fob"), "cargo_weight_kg" := Float(500.004)], f), f)
  {
    if f == "incoterm" {
      FobExample();
      StringsCompareTrimmedLowerCase("FOB", "fob", f);
    } else if f == "cargo_weight_kg" {
      NumberExamples();
    }
  }

  /** Two strings with the same trimmed, lower-cased form match. */
  lemma StringsCompareTrimmedLowerCase(a: string, b: string, fieldName: string)
    requires Lower(Strip(a)) == Lower(Strip(b))
    ensures CompareValues(Str(a), Str(b), fieldName)
  {
  }

  /** The incoterm-and-weight email scores 100% overall. */
  lemma IncotermAndWeightAccuracy()
    ensures var gtRecord := Record("E1", map["incoterm" := Str("FOB"), "cargo_weight_kg" := Float(500.0)]);
      var outRecord := Record("E1", map["incoterm" := Str("fob"), "cargo_weight_kg" := Float(500.004)]);
      var gt := Lookup([gtRecord]);
      var out := Lookup([outRecord]);
      AllKnown(gt, ["E1"]) &&
      Accuracy(TotalCorrect(gt, out, ["E1"], EvaluatedFields), 9) == 100.0
  {
    var gtRecord := Record("E1", map["incoterm" := Str("FOB"), "cargo_weight_kg" := Float(500.0)]);
    var outRecord := Record("E1", map["incoterm" := Str("fob"), "cargo_weight_kg" := Float(500.004)]);
    forall f | f in EvaluatedFields
      ensures CompareValues(Get(gtRecord.fields, f), Get(outRecord.fields, f), f)
    {
      IncotermAndWeightScenario(f);
    }
    SingleEmailScenario(gtRecord, outRecord);
  }
}
