/** The record-filtering loop of `load_and_preprocess_data`. */
module Loading {
  import opened Common
  import opened Preprocessing

  /** One row of the input file: deserialised, or rejected by the CSV reader. */
  datatype Row = Decoded(record: PatientRecord) | Undecodable

  datatype LoadResult = Loaded(records: seq<ProcessedRecord>) | RowError(index: nat)

  /** `clean_and_convert` with a given `str::parse`, as a value. */
  function Cleaner(parse: string -> Option<real>): PatientRecord -> Option<ProcessedRecord> {
    p => CleanAndConvert(p, parse)
  }

  /** What the load loop produces from the rows read so far, for a row
      cleaner `clean`: the accepted records in input order, or the error of
      the first undecodable row. */
  function Load(rows: seq<Row>, clean: PatientRecord -> Option<ProcessedRecord>): LoadResult
  {
    if rows == [] then Loaded([])
    else LoadStep(Load(rows[..|rows| - 1], clean), rows[|rows| - 1], |rows| - 1, clean)
  }

  /** One iteration of the load loop, on the outcome of the rows before row `i`. */
  function LoadStep(sofar: LoadResult, row: Row, i: nat, clean: PatientRecord -> Option<ProcessedRecord>): LoadResult
  {
    match sofar
    case RowError(e) => RowError(e)
    case Loaded(records) =>
      match row
      case Undecodable => RowError(i)
      case Decoded(p) =>
        match clean(p)
        case None => Loaded(records)
        case Some(x) => Loaded(records + [x])
  }

  /** Once the rows read so far end in an error, further rows do not change it. */
  lemma {:induction false} LoadErrorPersists(rows: seq<Row>, n: nat, clean: PatientRecord -> Option<ProcessedRecord>)
    requires n <= |rows| && Load(rows[..n], clean).RowError?
    ensures Load(rows, clean) == Load(rows[..n], clean)
    decreases |rows| - n
  {
    if n < |rows| {
      assert rows[..n + 1][..n] == rows[..n];
      LoadErrorPersists(rows, n + 1, clean);
    } else {
      assert rows[..n] == rows;
    }
  }

  /** The filtering loop of `load_and_preprocess_data`; opening and reading
      the file and the CSV reader are outside the model, `rows` is what the
      reader yields. */
  method LoadRecords(rows: seq<Row>, parse: string -> Option<real>) returns (r: LoadResult)
    ensures r == Load(rows, Cleaner(parse))
  {
    var clean := Cleaner(parse);
    var records: seq<ProcessedRecord> := [];
    for i := 0 to |rows|
      invariant Load(rows[..i], clean) == Loaded(records)
    {
      assert rows[..i + 1][..i] == rows[..i];
      match rows[i]
      case Undecodable =>
        LoadErrorPersists(rows, i + 1, clean);
        return RowError(i);
      case Decoded(p) =>
        var cleaned := CleanAndConvert(p, parse);
        if cleaned.Some? {
          records := records + [cleaned.value];
        }
    }
    assert rows[..|rows|] == rows;
    r := Loaded(records);
  }

  /** Loading succeeds exactly when every row can be decoded. */
  lemma {:induction false} LoadSucceedsIffAllDecoded(rows: seq<Row>, clean: PatientRecord -> Option<ProcessedRecord>)
    ensures Load(rows, clean).Loaded? ==> forall i :: 0 <= i < |rows| ==> rows[i].Decoded?
    ensures (forall i :: 0 <= i < |rows| ==> rows[i].Decoded?) ==> Load(rows, clean).Loaded?
  {
    if rows != [] {
      var last := |rows| - 1;
      var init := rows[..last];
      LoadSucceedsIffAllDecoded(init, clean);
      assert forall i :: 0 <= i < last ==> rows[i] == init[i];
    }
  }

  /** The row a failed load reports is the first undecodable one. */
  lemma {:induction false} LoadFailsAtFirst(rows: seq<Row>, clean: PatientRecord -> Option<ProcessedRecord>)
    requires Load(rows, clean).RowError?
    ensures var e := Load(rows, clean).index;
            e < |rows| && rows[e].Undecodable? && forall j :: 0 <= j < e ==> rows[j].Decoded?
  {
    var last := |rows| - 1;
    var init := rows[..last];
    var before := Load(init, clean);
    if before.RowError? {
      LoadFailsAtFirst(init, clean);
      assert Load(rows, clean) == before;
      assert rows[before.index] == init[before.index];
      forall j | 0 <= j < before.index ensures rows[j].Decoded? {
        assert rows[j] == init[j];
      }
    } else {
      LoadSucceedsIffAllDecoded(init, clean);
      assert Load(rows, clean) == RowError(last);
      forall j | 0 <= j < last ensures rows[j].Decoded? {
        assert rows[j] == init[j];
      }
    }
  }

  /** The records row `row` contributes to a load: its cleaned form when it
      decodes and the cleaner accepts it, nothing otherwise. */
  function Contribution(row: Row, clean: PatientRecord -> Option<ProcessedRecord>): seq<ProcessedRecord> {
    if row.Decoded? && clean(row.record).Some? then [clean(row.record).value] else []
  }

  /** The filter the load loop performs, stated from the front: every
      accepted row's record, once per accepted row, in input order. */
  function Kept(rows: seq<Row>, clean: PatientRecord -> Option<ProcessedRecord>): seq<ProcessedRecord> {
    if rows == [] then [] else Contribution(rows[0], clean) + Kept(rows[1..], clean)
  }

  /** One more row extends the filter by its own contribution. */
  lemma {:induction false} KeptSnoc(rows: seq<Row>, row: Row, clean: PatientRecord -> Option<ProcessedRecord>)
    ensures Kept(rows + [row], clean) == Kept(rows, clean) + Contribution(row, clean)
  {
    if rows == [] {
      assert [row][1..] == [];
    } else {
      assert (rows + [row])[0] == rows[0];
      assert (rows + [row])[1..] == rows[1..] + [row];
      KeptSnoc(rows[1..], row, clean);
      var c0, c := Contribution(rows[0], clean), Contribution(row, clean);
      assert c0 + (Kept(rows[1..], clean) + c) == (c0 + Kept(rows[1..], clean)) + c;
    }
  }

  /** `x` is the cleaned form of some decoded row. */
  ghost predicate Accepted(rows: seq<Row>, clean: PatientRecord -> Option<ProcessedRecord>, x: ProcessedRecord) {
    exists i :: 0 <= i < |rows| && rows[i].Decoded? && clean(rows[i].record) == Some(x)
  }

  /** A successful load keeps exactly the records the cleaner accepts, in
      input order and once per accepted row, and never more records than
      rows. */
  lemma {:induction false} LoadKeepsAccepted(rows: seq<Row>, clean: PatientRecord -> Option<ProcessedRecord>)
    requires Load(rows, clean).Loaded?
    ensures Load(rows, clean).records == Kept(rows, clean)
    ensures |Load(rows, clean).records| <= |rows|
    ensures forall x :: x in Load(rows, clean).records ==> Accepted(rows, clean, x)
    ensures forall x :: Accepted(rows, clean, x) ==> x in Load(rows, clean).records
  {
    if rows != [] {
      var last := |rows| - 1;
      var init := rows[..last];
      assert Load(rows, clean) == LoadStep(Load(init, clean), rows[last], last, clean);
      LoadKeepsAccepted(init, clean);
      assert rows == init + [rows[last]];
      KeptSnoc(init, rows[last], clean);
      var out := Load(rows, clean).records;
      var before := Load(init, clean).records;
      forall x | x in out ensures Accepted(rows, clean, x) {
        if x in before {
          var i :| 0 <= i < |init| && init[i].Decoded? && clean(init[i].record) == Some(x);
          assert rows[i] == init[i];
        } else {
          assert clean(rows[last].record) == Some(x);
        }
      }
      forall x | Accepted(rows, clean, x) ensures x in out {
        var i :| 0 <= i < |rows| && rows[i].Decoded? && clean(rows[i].record) == Some(x);
        if i < last {
          assert init[i] == rows[i];
          assert Accepted(init, clean, x);
        }
      }
    }
  }

  /** Every record loaded with `clean_and_convert` has the fixed 13-feature
      layout and a binary target. */
  lemma LoadedWellFormed(rows: seq<Row>, parse: string -> Option<real>)
    requires Load(rows, Cleaner(parse)).Loaded?
    ensures forall x :: x in Load(rows, Cleaner(parse)).records ==> |x.features| == FeatureCount && x.target <= 1
  {
    LoadKeepsAccepted(rows, Cleaner(parse));
    forall x | x in Load(rows, Cleaner(parse)).records
      ensures |x.features| == FeatureCount && x.target <= 1
    {
      var i :| 0 <= i < |rows| && rows[i].Decoded? && Cleaner(parse)(rows[i].record) == Some(x);
      assert CleanAndConvert(rows[i].record, parse) == Some(x);
    }
  }
}
