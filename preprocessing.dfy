/** Turning raw patient rows into labelled feature vectors, and splitting
    them into a training and a test collection. */
module Preprocessing {
  import opened Common

  /** A row of the Cleveland heart-disease table as deserialised: eleven
      numeric columns, the two columns `ca` and `thal` kept as text because
      they may hold the missing-value code "?", and the diagnosis `num`. */
  datatype PatientRecord = PatientRecord(
    age: real, sex: real, cp: real, trestbps: real, chol: real, fbs: real,
    restecg: real, thalach: real, exang: real, oldpeak: real, slope: real,
    ca: string, thal: string, num: nat)

  /** A labelled feature vector, the input of every learner. */
  datatype ProcessedRecord = ProcessedRecord(features: seq<real>, target: nat)

  /** Number of features of a cleaned record. */
  const FeatureCount: nat := 13

  /** The characters `char::is_whitespace` accepts (the Unicode White_Space property). */
  predicate IsWhitespace(c: char) {
    || '\t' <= c <= '\r'
    || c == ' ' || c == '\U{0085}' || c == '\U{00A0}' || c == '\U{1680}'
    || '\U{2000}' <= c <= '\U{200A}'
    || c == '\U{2028}' || c == '\U{2029}' || c == '\U{202F}' || c == '\U{205F}' || c == '\U{3000}'
  }

  /** Number of whitespace characters at the start of `s`. */
  function LeadingSpace(s: string): (n: nat)
    ensures n <= |s|
    ensures forall k :: 0 <= k < n ==> IsWhitespace(s[k])
    ensures n < |s| ==> !IsWhitespace(s[n])
  {
    if s != [] && IsWhitespace(s[0]) then 1 + LeadingSpace(s[1..]) else 0
  }

  /** Number of whitespace characters at the end of `s`. */
  function TrailingSpace(s: string): (n: nat)
    ensures n <= |s|
    ensures forall k :: |s| - n <= k < |s| ==> IsWhitespace(s[k])
    ensures n < |s| ==> !IsWhitespace(s[|s| - n - 1])
  {
    if s != [] && IsWhitespace(s[|s| - 1]) then 1 + TrailingSpace(s[..|s| - 1]) else 0
  }

  /** `str::trim`: the infix left after removing leading and trailing whitespace. */
  function Trim(s: string): (r: string)
    ensures exists i, j :: 0 <= i <= j <= |s| && r == s[i..j]
                           && (forall k :: 0 <= k < i ==> IsWhitespace(s[k]))
                           && (forall k :: j <= k < |s| ==> IsWhitespace(s[k]))
    ensures r != [] ==> !IsWhitespace(r[0]) && !IsWhitespace(r[|r| - 1])
  {
    var i := LeadingSpace(s);
    var j := |s| - TrailingSpace(s[i..]);
    s[i..j]
  }

  /** The eleven numeric columns, in the order of the feature layout. */
  function NumericColumns(record: PatientRecord): (cols: seq<real>)
    ensures |cols| == FeatureCount - 2
  {
    [record.age, record.sex, record.cp, record.trestbps, record.chol, record.fbs,
     record.restecg, record.thalach, record.exang, record.oldpeak, record.slope]
  }

  /** `clean_and_convert`. `parse` stands for `str::parse::<f32>`, a library
      call whose grammar is not modelled. */
  function CleanAndConvert(record: PatientRecord, parse: string -> Option<real>): (r: Option<ProcessedRecord>)
    ensures Trim(record.ca) == "?" || Trim(record.thal) == "?" ==> r == None
    ensures parse(Trim(record.ca)) == None || parse(Trim(record.thal)) == None ==> r == None
    ensures r.Some? <==> Trim(record.ca) != "?" && Trim(record.thal) != "?"
                         && parse(Trim(record.ca)).Some? && parse(Trim(record.thal)).Some?
    ensures r.Some? ==> |r.value.features| == FeatureCount
    ensures r.Some? ==> r.value.features == NumericColumns(record)
                                             + [parse(Trim(record.ca)).value, parse(Trim(record.thal)).value]
    ensures r.Some? ==> r.value.target <= 1 && (r.value.target == 1 <==> record.num > 0)
  {
    var ca := Trim(record.ca);
    var thal := Trim(record.thal);
    if ca == "?" || thal == "?" then None
    else
      match parse(ca)
      case None => None
      case Some(caValue) =>
        match parse(thal)
        case None => None
        case Some(thalValue) =>
          Some(ProcessedRecord(NumericColumns(record) + [caValue, thalValue],
                               if record.num > 0 then 1 else 0))
  }

  /** `(len as f32 * test_size).round() as usize`: round half away from zero,
      and the saturating cast sends a negative product to 0. */
  function TestCount(len: nat, testSize: real): (n: nat)
    ensures len as real * testSize >= 0.0 ==>
              len as real * testSize - 0.5 < n as real <= len as real * testSize + 0.5
    ensures len as real * testSize < 0.0 ==> n == 0
  {
    var x := len as real * testSize;
    if x < 0.0 then 0 else (x + 0.5).Floor
  }

  /** A test fraction between 0 and 1 never asks `drain` for more than there is. */
  lemma TestCountInRange(len: nat, testSize: real)
    requires 0.0 <= testSize <= 1.0
    ensures TestCount(len, testSize) <= len
  {
    assert len as real * testSize <= len as real;
  }

  /** The caller's `Vec` of records, which `train_test_split` shuffles and drains. */
  class RecordVec {
    var items: seq<ProcessedRecord>

    constructor (items: seq<ProcessedRecord>)
      ensures this.items == items
    {
      this.items := items;
    }
  }

  /** `train_test_split` after its random shuffle: `shuffled` is the order the
      shuffle produced (any permutation of the records). The first
      `TestCount` records become the test set, the rest the training set,
      and `data` is left empty. */
  method TrainTestSplit(data: RecordVec, shuffled: seq<ProcessedRecord>, testSize: real)
    returns (train: seq<ProcessedRecord>, test: seq<ProcessedRecord>)
    requires |shuffled| == |data.items| && multiset(shuffled) == multiset(data.items)
    requires TestCount(|data.items|, testSize) <= |data.items|
    modifies data
    ensures data.items == []
    ensures test == shuffled[..TestCount(|old(data.items)|, testSize)]
    ensures train == shuffled[TestCount(|old(data.items)|, testSize)..]
    ensures multiset(train + test) == multiset(old(data.items))
  {
    data.items := shuffled;
    var testCount := TestCount(|data.items|, testSize);
    test := data.items[..testCount];
    data.items := data.items[testCount..];
    train := data.items;
    data.items := [];
    assert shuffled == test + train;
  }
}
