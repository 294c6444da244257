/** The feature-preparation pipeline of the form-submit handler
    (main.js lines 92-125): resolve the model name to its frequency score,
    cap the odometer, derive the car's age, put the eight features in the
    training order and standard-scale them. Form values arrive already
    parsed into numbers. */
module Features {
  import Names
  import Scaling

  /** Odometer readings above this are replaced by it. */
  const OdometerCap: real := 10000000.0

  /** The year the car's age is counted from. */
  const ReferenceYear: real := 2026.0

  /** Frequency score used when the name has no usable table entry. */
  const DefaultFrequency: real := 1.0

  /** One form submission, with every numeric field already parsed. */
  datatype RawInputs = RawInputs(
    modelName: string,
    condition: real,
    cylinders: real,
    fuel: real,
    odometer: real,
    transmission: real,
    drive: real,
    year: real)

  /** The eight features by name, before they are put in vector order. */
  datatype FeatureRow = FeatureRow(
    model: real,
    condition: real,
    cylinders: real,
    fuel: real,
    odometer: real,
    transmission: real,
    drive: real,
    carAge: real)
  {
    /** The training order
        [model, condition, cylinders, fuel, odometer, transmission, drive, CarAge]. */
    function ToVector(): (v: seq<real>)
      ensures |v| == Scaling.FeatureCount
    {
      [model, condition, cylinders, fuel, odometer, transmission, drive, carAge]
    }
  }

  /** Reads a vector in training order back into named features. */
  function FromVector(v: seq<real>): FeatureRow
    requires |v| == Scaling.FeatureCount
  {
    FeatureRow(v[0], v[1], v[2], v[3], v[4], v[5], v[6], v[7])
  }

  /** Reading back a vector gives the features that were written. */
  lemma FromToVector(row: FeatureRow)
    ensures FromVector(row.ToVector()) == row
  {
  }

  /** Writing out the features read from a vector gives that vector. */
  lemma ToFromVector(v: seq<real>)
    requires |v| == Scaling.FeatureCount
    ensures FromVector(v).ToVector() == v
  {
  }

  /** The frequency score of a model name (main.js lines 93-94): the score
      stored under the normalised name, or 1 when the name has no entry or
      its stored score is zero, since the code falls back on any falsy
      value. */
  function ModelFrequency(freq: map<string, real>, name: string): (r: real)
    ensures r != 0.0
    ensures var key := Names.Normalize(name);
      key in freq && freq[key] != 0.0 ==> r == freq[key]
    ensures var key := Names.Normalize(name);
      key !in freq || freq[key] == 0.0 ==> r == DefaultFrequency
  {
    var key := Names.Normalize(name);
    if key in freq && freq[key] != 0.0 then freq[key] else DefaultFrequency
  }

  /** The odometer cap (main.js line 108): a reading strictly above ten
      million is replaced by ten million; any other reading is kept. */
  function ClampOdometer(x: real): (r: real)
    ensures r <= OdometerCap
    ensures x <= OdometerCap ==> r == x
    ensures x > OdometerCap ==> r == OdometerCap
  {
    if x > OdometerCap then OdometerCap else x
  }

  /** The car's age (main.js line 109): the reference year minus the model
      year. */
  function CarAge(year: real): (age: real)
    ensures year + age == ReferenceYear
  {
    ReferenceYear - year
  }

  /** The field transformations of main.js lines 93-109: every field passes
      through except the model name (looked up), the odometer (capped) and
      the year (turned into an age). */
  function Transform(raw: RawInputs, freq: map<string, real>): (row: FeatureRow)
    ensures row.model == ModelFrequency(freq, raw.modelName)
    ensures row.condition == raw.condition && row.cylinders == raw.cylinders
    ensures row.fuel == raw.fuel && row.transmission == raw.transmission
    ensures row.drive == raw.drive
    ensures row.odometer == ClampOdometer(raw.odometer)
    ensures raw.year + row.carAge == ReferenceYear
  {
    FeatureRow(
      ModelFrequency(freq, raw.modelName),
      raw.condition,
      raw.cylinders,
      raw.fuel,
      ClampOdometer(raw.odometer),
      raw.transmission,
      raw.drive,
      CarAge(raw.year))
  }

  /** The transformed features in training order (main.js lines 111-122). */
  function OrderedInputs(raw: RawInputs, freq: map<string, real>): (v: seq<real>)
    ensures |v| == Scaling.FeatureCount
    ensures FromVector(v) == Transform(raw, freq)
  {
    Transform(raw, freq).ToVector()
  }

  /** The ordered features standard-scaled with the training tables
      (main.js lines 124-125); unscaling gives the ordered features back. */
  function Prepare(raw: RawInputs, freq: map<string, real>): (scaled: seq<real>)
    ensures |scaled| == Scaling.FeatureCount
    ensures Scaling.Unscale(scaled, Scaling.ScalingMean, Scaling.ScalingStd) == OrderedInputs(raw, freq)
  {
    Scaling.TablesWellFormed();
    var ordered := OrderedInputs(raw, freq);
    var scaled := Scaling.Scale(ordered, Scaling.ScalingMean, Scaling.ScalingStd);
    Scaling.ScaleRoundTrip(ordered, Scaling.ScalingMean, Scaling.ScalingStd);
    assert Scaling.Unscale(scaled, Scaling.ScalingMean, Scaling.ScalingStd) == ordered;
    scaled
  }

  /** Position `i` of the prepared vector is `(x - mean[i]) / std[i]` for
      the ordered feature `x` at that position. */
  lemma PrepareScalesEachPosition(raw: RawInputs, freq: map<string, real>, i: nat)
    requires i < Scaling.FeatureCount
    ensures Prepare(raw, freq)[i]
         == (OrderedInputs(raw, freq)[i] - Scaling.ScalingMean[i]) / Scaling.ScalingStd[i]
  {
    Scaling.TablesWellFormed();
    var ordered := OrderedInputs(raw, freq);
    var scaled := Scaling.Scale(ordered, Scaling.ScalingMean, Scaling.ScalingStd);
    assert Prepare(raw, freq) == scaled;
  }

  /** Capping is idempotent and keeps the order of readings. */
  lemma ClampOdometerIdempotentMonotone(x: real, y: real)
    ensures ClampOdometer(ClampOdometer(x)) == ClampOdometer(x)
    ensures x <= y ==> ClampOdometer(x) <= ClampOdometer(y)
  {
  }

  /** The age determines the year it was derived from. */
  lemma CarAgeInjective(y1: real, y2: real)
    ensures CarAge(y1) == CarAge(y2) <==> y1 == y2
  {
  }

  /** Two submissions are scaled to the same vector exactly when they give
      the same named features. */
  lemma PrepareDeterminedByFeatures(a: RawInputs, b: RawInputs, freq: map<string, real>)
    ensures Prepare(a, freq) == Prepare(b, freq) <==> Transform(a, freq) == Transform(b, freq)
  {
    Scaling.TablesWellFormed();
    var va, vb := OrderedInputs(a, freq), OrderedInputs(b, freq);
    Scaling.ScaleInjective(va, vb, Scaling.ScalingMean, Scaling.ScalingStd);
    FromToVector(Transform(a, freq));
    FromToVector(Transform(b, freq));
  }

  /** Submissions whose model names differ only in letter case and in the
      white space around them are prepared identically. */
  lemma PrepareIgnoresNameCaseAndPadding(
    raw: RawInputs, t: string, p: string, q: string, freq: map<string, real>)
    requires Names.SameUpToCase(raw.modelName, t)
    requires Names.AllWhitespace(p) && Names.AllWhitespace(q)
    ensures Prepare(raw.(modelName := p + raw.modelName + q), freq)
         == Prepare(raw.(modelName := t), freq)
  {
    Names.NormalizeIgnoresCaseAndPadding(raw.modelName, t, p, q);
    var a := raw.(modelName := p + raw.modelName + q);
    var b := raw.(modelName := t);
    assert Transform(a, freq) == Transform(b, freq);
    PrepareDeterminedByFeatures(a, b, freq);
  }

  lemma LowerExampleName()
    ensures Names.Lower("F-150 ") == "f-150 "
  {
    assert Names.LowerChar('F') == 'f';
  }

  lemma TrimExampleName()
    ensures Names.Trim("f-150 ") == "f-150"
  {
    var l := "f-150 ";
    assert Names.LeadingCount(l) == 0;
    assert Names.TrimStart(l) == l;
    assert l[..|l| - 1] == "f-150";
    assert Names.TrailingCount("f-150") == 0;
    assert Names.TrailingCount(l) == 1;
  }

  lemma NormalizeExampleName()
    ensures Names.Normalize("F-150 ") == "f-150"
  {
    LowerExampleName();
    TrimExampleName();
  }

  /** A worked submission: an "F-150 " from 2015 whose name is in the table
      with score 200. */
  lemma ExampleSubmission()
    ensures OrderedInputs(
      RawInputs("F-150 ", 3.0, 6.0, 1.0, 85000.0, 1.0, 1.0, 2015.0),
      map["f-150" := 200.0])
      == [200.0, 3.0, 6.0, 1.0, 85000.0, 1.0, 1.0, 11.0]
  {
    var raw := RawInputs("F-150 ", 3.0, 6.0, 1.0, 85000.0, 1.0, 1.0, 2015.0);
    var freq := map["f-150" := 200.0];
    NormalizeExampleName();
    assert ModelFrequency(freq, raw.modelName) == 200.0;
    assert Transform(raw, freq) == FeatureRow(200.0, 3.0, 6.0, 1.0, 85000.0, 1.0, 1.0, 11.0);
  }

  /** An unknown name falls back to the default score, and so does a name
      whose stored score is 0. */
  lemma ExampleFallbacks()
    ensures ModelFrequency(map["f-150" := 200.0], "civic") == 1.0
    ensures ModelFrequency(map["civic" := 0.0], "civic") == 1.0
  {
    assert Names.Lower("civic") == "civic";
    assert Names.LeadingCount("civic") == 0;
    assert Names.TrailingCount("civic") == 0;
    assert Names.Normalize("civic") == "civic";
  }
}
