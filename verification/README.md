# Used-car price form: feature preparation, modelled in Dafny

The browser front end of the used-car price predictor takes one car
description from a form and turns it into the eight numbers the regression
model was trained on. This project models that preparation step and the
byte-copy loop that unpacks the embedded model. It proves the properties
the code depends on.

- **Names** (`names.dfy`): the model name typed into the form is
  lower-cased and trimmed before the table lookup. Trimming uses exactly
  the characters `String.prototype.trim` removes: the ECMAScript WhiteSpace
  and LineTerminator sets.
- **Scaling** (`scaling.dfy`): the two constant 8-entry tables
  `SCALING_MEAN` and `SCALING_STD`, and standard scaling
  `(x - mean[i]) / std[i]` together with its inverse.
- **Features** (`features.dfy`): one submission (`RawInputs`, with the
  numbers already parsed) goes through these steps:
  - the model-frequency lookup `FREQ_MAP[name] || 1`;
  - the odometer cap at 10,000,000;
  - `CarAge = 2026 - year`;
  - the fixed feature order
    `[model, condition, cylinders, fuel, odometer, transmission, drive, CarAge]`;
  - the scaled vector.
- **Buffer** (`buffer.dfy`): the loop of `base64ToBuffer`. It copies the
  decoded binary string into a `Uint8Array` of the same length, one UTF-16
  code unit per byte. The store's modulo-256 conversion is written out.

Numbers are Dafny `real`s, an idealisation of JavaScript doubles. The
frequency table is a `map<string, real>`. A JavaScript string handed to the
copy loop is a sequence of 16-bit code units.

Three facts about the code shape the model:
- main.js does no input validation, so the model has no error path.
- The reference year is the literal 2026 (main.js:109).
- Because the lookup uses `||`, a stored score of 0 falls back to 1 just
  as a missing name does (main.js:94).

## Model

| member | source | states |
|---|---|---|
| Names.Lower | main.js:93 | lower-casing keeps the length and lower-cases each character in place, mapping every ASCII capital to its small letter |
| Names.Trim | main.js:93 | the result is a slice of the input. Everything cut from either end is white space, and the result neither starts nor ends with white space, so the longest white-space prefix and suffix are removed |
| Names.TrimIgnoresPadding | main.js:93 | white space added before or after a string does not change its trimmed form |
| Names.Normalize | main.js:93 | the lookup key is a slice of the lower-cased name with only white space cut off either end, and it neither starts nor ends with white space, so it is exactly the lower-cased, trimmed name; it holds no ASCII capital and is no longer than the name. NormalizeIdempotent and NormalizeIgnoresCaseAndPadding state what it preserves |
| Names.NormalizeIdempotent | main.js:93 | normalising an already normalised key (lower-case, then trim) changes nothing |
| Names.NormalizeIgnoresCaseAndPadding | main.js:93 | names that differ only in letter case and in the white space around them get the same lookup key |
| Features.ModelFrequency | main.js:93-94 | the model feature is never 0. It is the stored score of the normalised name when that score exists and is non-zero, and 1 when the name is absent or its score is 0 |
| Features.ExampleFallbacks | main.js:94 | an unknown name, and a name stored with score 0, both resolve to 1 |
| Features.ClampOdometer | main.js:108 | the capped reading is at most 10,000,000. It is unchanged when the input is at most 10,000,000, so exactly 10,000,000 stays, and it is 10,000,000 otherwise |
| Features.ClampOdometerIdempotentMonotone | main.js:108 | capping twice equals capping once, and capping preserves the order of readings |
| Features.CarAge | main.js:109 | year plus age is 2026 |
| Features.CarAgeInjective | main.js:109 | two years give the same age exactly when they are equal |
| Features.Transform | main.js:93-109 | condition, cylinders, fuel, transmission and drive pass through unchanged. The model feature is the frequency lookup, the odometer is capped, and the age plus the year is 2026 |
| Features.FeatureRow.ToVector | main.js:113-122 | the ordered array has exactly 8 entries; FromToVector and ToFromVector prove the order model, condition, cylinders, fuel, odometer, transmission, drive, CarAge is a bijection with the named features |
| Features.FromToVector | main.js:111-122 | reading the ordered vector back by position gives the named features that were written, so the order is fixed and loses nothing |
| Features.ToFromVector | main.js:111-122 | every 8-entry vector is the ordered form of the features read from it |
| Features.OrderedInputs | main.js:111-122 | the ordered vector has exactly 8 entries, and read by position it is the transformed submission in the order model, condition, cylinders, fuel, odometer, transmission, drive, CarAge |
| Features.Prepare | main.js:124-125 | the scaled vector has 8 entries, and unscaling it with the same tables gives the ordered vector back |
| Features.PrepareScalesEachPosition | main.js:125 | position i of the scaled vector is (ordered[i] - SCALING_MEAN[i]) / SCALING_STD[i] |
| Features.PrepareDeterminedByFeatures | main.js:111-125 | two submissions give the same scaled vector exactly when they give the same named features |
| Features.PrepareIgnoresNameCaseAndPadding | main.js:93-125 | submissions whose model names differ only in letter case and surrounding white space are prepared identically |
| Features.ExampleSubmission | main.js:93-122 | "F-150 " from 2015 with table {"f-150": 200}, condition 3, cylinders 6, fuel 1, odometer 85000, transmission 1, drive 1 gives the ordered vector [200, 3, 6, 1, 85000, 1, 1, 11] |
| Scaling.TablesWellFormed | main.js:64-66 | both tables have exactly 8 entries and every standard deviation is strictly positive, so the map at line 125 never indexes past a table or divides by zero |
| Scaling.Scale | main.js:125 | the scaled vector has the input's length; ScaleRoundTrip and UnscaleRoundTrip prove it is inverted position by position by x = y * std[i] + mean[i] |
| Scaling.ScaleRoundTrip | main.js:125 | unscaling a scaled vector, x = y * std[i] + mean[i], gives back the raw vector |
| Scaling.UnscaleRoundTrip | main.js:125 | scaling an unscaled vector gives it back, so scaling is onto |
| Scaling.ScaleInjective | main.js:125 | two raw vectors scale to the same vector exactly when they are equal |
| Scaling.ScaleWithUnitParameters | main.js:125 | with every mean 0 and every standard deviation 1, scaling is the identity |
| Buffer.ToUint8 | main.js:16 | a Uint8Array store keeps a value below 256 as is, and otherwise keeps it modulo 256 |
| Buffer.Base64ToBuffer | main.js:11-19 | the byte array has the decoded string's length, and byte i is code unit i modulo 256 |
| Buffer.CopyRoundTrip | main.js:12-18 | the copied bytes read back as the same string exactly when every code unit is below 256, so copying a binary string, as atob produces, truncates nothing |
| Buffer.NonBinaryStringIsTruncated | main.js:14-16 | a code unit of 256 or more is altered by the copy |

## Left out

- DOM access, button and status updates, `alert` and the model-name datalist (`populateModelList`, main.js:69-82) are presentation code with no logic to state.
- Model loading and inference (`ort.InferenceSession.create`, `session.run`, the `[1, 8]` tensor) are calls into an inference runtime whose code is not part of this model.
- `async`/`await`, the unused `sleep` helper, the event wiring and the `try`/`catch` around loading and prediction are control flow around the pipeline. They are not modelled.
- `atob`, `parseFloat` and the `toLocaleString` currency formatting are library calls. The model takes the decoded string and the already-parsed numbers as inputs.
- NaN is not modelled. A field that fails to parse makes the JavaScript propagate NaN, which `odometer > 10000000` lets through uncapped. Reals have no NaN.
- The narrowing to 32-bit floats (`new Float32Array`, main.js:132) and double-precision rounding are left out. The table constants are taken as exact decimals, and the subtraction and division are exact.
- `console.log` / `console.error` debug output is left out.
- The `ArrayBuffer` that `base64ToBuffer` returns through `bytes.buffer` is modelled as the byte sequence itself.
- Names.Lower: maps only the ASCII letters A-Z. JavaScript's `toLowerCase` also lower-cases non-ASCII letters, and for some characters it changes the string's length.
- Features.ModelFrequency: treats the table as a plain map. If `FREQ_MAP` is a plain JavaScript object, the inherited keys "constructor" and "__proto__" are truthy and are not replaced by 1. `model_data.js`, which defines the table, is not part of this model.
