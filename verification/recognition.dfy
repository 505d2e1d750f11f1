/** The decision layer of model/recognition_model.py: the exactly-one-face
    guard, the training-size guard, the NULL_LABEL padding of `fit`, the
    predict-before-fit guard and the threshold gate of `predict`. Face
    detection, encoding and the classifiers' own outputs are inputs. */
module Recognition {
  import opened Base

  /** A face encoding as produced by the face-encoding library. */
  type Encoding = seq<real>

  const EncodingLength: nat := 128
  const NullLabel: string := "NULL_LABEL"
  const UnknownLabel: string := "unknown"

  /** The all-zero encoding `fit` pads a one-label training set with. */
  function ZeroEncoding(): (e: Encoding)
    ensures |e| == EncodingLength
    ensures forall i :: 0 <= i < |e| ==> e[i] == 0.0
  {
    seq(EncodingLength, _ => 0.0)
  }

  /** What the face library reports for one image: whether the image could
      be read, and one encoding per face bounding box it found. */
  datatype Photo = Photo(readable: bool, faces: seq<Encoding>)

  /** `MixedClassifier`: `main_clf` is None until `fit`; a fitted classifier
      keeps the (padded) training set and the KNN neighbour count. */
  datatype Classifier =
    | Unfitted
    | Fitted(faces: seq<Encoding>, labels: seq<string>, neighbours: nat)

  /** What the fitted classifier answers for a list of encodings:
      `predict`, `predict_proba` (one probability row per encoding) and
      `predict_dist` (distance to the nearest training encoding). */
  datatype ClassifierOutput = ClassifierOutput(labels: seq<string>, probs: seq<seq<real>>, dists: seq<real>)

  /** `pack_result(label, prob, dist)`. */
  datatype Prediction = Prediction(name: string, prob: real, dist: real)

  /** `get_face_encoding`: the image must show exactly one face. */
  function GetFaceEncoding(p: Photo): (r: Result<Encoding>)
    ensures r.Ok? <==> |p.faces| == 1
    ensures r.Ok? ==> r.value == p.faces[0]
    ensures r == Err(NoFaceError) <==> |p.faces| == 0
    ensures r == Err(TooManyFacesError) <==> |p.faces| > 1
  {
    if |p.faces| != 1 then
      if |p.faces| == 0 then Err(NoFaceError) else Err(TooManyFacesError)
    else Ok(p.faces[0])
  }

  /** Counting up from `k`, the nearest integer to the square root of `n`. */
  function RoundSqrtFrom(n: nat, k: nat): (r: nat)
    requires k == 0 || (2 * k - 1) * (2 * k - 1) < 4 * n
    ensures 4 * n < (2 * r + 1) * (2 * r + 1)
    ensures r == 0 || (2 * r - 1) * (2 * r - 1) < 4 * n
    decreases 4 * n - k
  {
    var sq := (2 * k + 1) * (2 * k + 1);
    assert sq == 4 * (k * k + k) + 1;
    if 4 * n < sq then k
    else
      assert k < 4 * n by {
        assert 2 * k + 1 <= sq;
      }
      assert (2 * (k + 1) - 1) * (2 * (k + 1) - 1) == sq;
      RoundSqrtFrom(n, k + 1)
  }

  /** `int(round(math.sqrt(n)))`: the integer `r` with
      `r - 1/2 < sqrt(n) < r + 1/2` (a square root of an integer never lies
      half-way, so rounding mode does not matter). */
  function RoundSqrt(n: nat): (r: nat)
    ensures 4 * n < (2 * r + 1) * (2 * r + 1)
    ensures r == 0 || (2 * r - 1) * (2 * r - 1) < 4 * n
  {
    RoundSqrtFrom(n, 0)
  }

  /** The set of distinct labels, `set(y_train)`. */
  function DistinctLabels(y: seq<string>): set<string> {
    set l | l in y
  }

  /** The padding of `MixedClassifier.fit`: with fewer than two distinct
      labels one zero encoding labelled NULL_LABEL is appended. */
  function Pad(x: seq<Encoding>, y: seq<string>): (p: (seq<Encoding>, seq<string>))
    ensures |p.0| == |x| + (if |DistinctLabels(y)| < 2 then 1 else 0)
    ensures |p.1| == |y| + (if |DistinctLabels(y)| < 2 then 1 else 0)
    ensures p.0[..|x|] == x && p.1[..|y|] == y
    ensures |DistinctLabels(y)| < 2 ==> p.0[|x|] == ZeroEncoding() && p.1[|y|] == NullLabel
  {
    if |DistinctLabels(y)| < 2 then (x + [ZeroEncoding()], y + [NullLabel])
    else (x, y)
  }

  /** `MixedClassifier.fit`: the neighbour count is taken from the
      unpadded training set, then the set is padded and fitted. */
  function Fit(x: seq<Encoding>, y: seq<string>): (c: Classifier)
    ensures c.Fitted?
    ensures c.neighbours == RoundSqrt(|x|)
    ensures (c.faces, c.labels) == Pad(x, y)
  {
    var p := Pad(x, y);
    Fitted(p.0, p.1, RoundSqrt(|x|))
  }

  /** `FaceRecognition.train`: mismatched sizes are refused before fitting. */
  function Train(faces: seq<Encoding>, labels: seq<string>): (r: Result<Classifier>)
    ensures r.Err? <==> |faces| != |labels|
    ensures r.Err? ==> r.error == TrainSizeMismatch
    ensures r.Ok? ==> r.value.Fitted? && (r.value.faces, r.value.labels) == Pad(faces, labels)
  {
    if |faces| != |labels| then Err(TrainSizeMismatch)
    else Ok(Fit(faces, labels))
  }

  /** `predict`, `predict_proba` and `predict_dist` of `MixedClassifier`:
      each raises PredictWithoutFitError before `fit`, and otherwise returns
      what the fitted estimators answer. */
  function Outputs(c: Classifier, answer: ClassifierOutput): (r: Result<ClassifierOutput>)
    ensures r.Ok? <==> c.Fitted?
    ensures r.Err? ==> r.error == PredictWithoutFitError
    ensures r.Ok? ==> r.value == answer
  {
    if c.Unfitted? then Err(PredictWithoutFitError) else Ok(answer)
  }

  /** `max(probs)` of a non-empty row. */
  function Max(probs: seq<real>): (m: real)
    requires |probs| > 0
    ensures m in probs
    ensures forall i :: 0 <= i < |probs| ==> probs[i] <= m
  {
    if |probs| == 1 then probs[0]
    else
      var rest := Max(probs[1..]);
      if probs[0] >= rest then probs[0] else rest
  }

  /** The label survives both thresholds. */
  predicate Kept(probs: seq<real>, dist: real, distThreshold: real, probThreshold: real)
    requires |probs| > 0
  {
    Max(probs) >= probThreshold && dist <= distThreshold
  }

  /** The per-face decision of `predict`. */
  function Decide(tag: string, probs: seq<real>, dist: real,
                  distThreshold: real, probThreshold: real): (r: Prediction)
    requires |probs| > 0
    ensures r.dist == dist
    ensures Kept(probs, dist, distThreshold, probThreshold) ==> r.name == tag && r.prob == Max(probs)
    ensures !Kept(probs, dist, distThreshold, probThreshold) ==> r.name == UnknownLabel && r.prob == 1.0
  {
    var prob := Max(probs);
    if prob < probThreshold then Prediction(UnknownLabel, 1.0, dist)
    else if dist <= distThreshold then Prediction(tag, prob, dist)
    else Prediction(UnknownLabel, 1.0, dist)
  }

  function Min3(a: nat, b: nat, c: nat): nat {
    if a <= b && a <= c then a else if b <= c then b else c
  }

  /** Every probability row that `zip` reaches is non-empty. */
  predicate RowsNonEmpty(out: ClassifierOutput) {
    forall i :: 0 <= i < Min3(|out.labels|, |out.probs|, |out.dists|) ==> |out.probs[i]| > 0
  }

  /** The loop of `predict` over `zip(predictions, probs, distances)`;
      `max` of an empty row raises, which `predict` reports as
      PredictionError. */
  function PackAll(out: ClassifierOutput, distThreshold: real, probThreshold: real): (r: Result<seq<Prediction>>)
    decreases |out.labels|
  {
    if |out.labels| == 0 || |out.probs| == 0 || |out.dists| == 0 then Ok([])
    else if |out.probs[0]| == 0 then Err(PredictionError)
    else
      var first := Decide(out.labels[0], out.probs[0], out.dists[0], distThreshold, probThreshold);
      match PackAll(ClassifierOutput(out.labels[1..], out.probs[1..], out.dists[1..]), distThreshold, probThreshold)
      case Err(e) => Err(e)
      case Ok(rest) => Ok([first] + rest)
  }

  /** `FaceRecognition.predict`: the classifier's errors become
      PredictionError; otherwise one result per zipped triple. */
  function Predict(c: Classifier, answer: ClassifierOutput,
                   distThreshold: real, probThreshold: real): Result<seq<Prediction>>
  {
    match Outputs(c, answer)
    case Err(_) => Err(PredictionError)
    case Ok(out) => PackAll(out, distThreshold, probThreshold)
  }

  /** The zip loop yields exactly one result per triple, in order, each with
      the triple's distance, and fails only on an empty probability row. */
  lemma {:induction false} PackAllSpec(out: ClassifierOutput, distThreshold: real, probThreshold: real)
    ensures PackAll(out, distThreshold, probThreshold).Ok? <==> RowsNonEmpty(out)
    ensures PackAll(out, distThreshold, probThreshold).Err? ==>
              PackAll(out, distThreshold, probThreshold).error == PredictionError
    ensures PackAll(out, distThreshold, probThreshold).Ok? ==>
              var r := PackAll(out, distThreshold, probThreshold).value;
              && |r| == Min3(|out.labels|, |out.probs|, |out.dists|)
              && forall i :: 0 <= i < |r| ==>
                   |out.probs[i]| > 0
                   && r[i] == Decide(out.labels[i], out.probs[i], out.dists[i], distThreshold, probThreshold)
                   && r[i].dist == out.dists[i]
    decreases |out.labels|
  {
    if |out.labels| == 0 || |out.probs| == 0 || |out.dists| == 0 {
    } else {
      var tail := ClassifierOutput(out.labels[1..], out.probs[1..], out.dists[1..]);
      PackAllSpec(tail, distThreshold, probThreshold);
      assert Min3(|out.labels|, |out.probs|, |out.dists|) == 1 + Min3(|tail.labels|, |tail.probs|, |tail.dists|);
      assert RowsNonEmpty(out) <==> |out.probs[0]| > 0 && RowsNonEmpty(tail) by {
        if |out.probs[0]| > 0 && RowsNonEmpty(tail) {
          forall i | 0 <= i < Min3(|out.labels|, |out.probs|, |out.dists|)
            ensures |out.probs[i]| > 0
          {
            if i > 0 {
              assert out.probs[i] == tail.probs[i - 1];
            }
          }
        }
        if RowsNonEmpty(out) {
          forall i | 0 <= i < Min3(|tail.labels|, |tail.probs|, |tail.dists|)
            ensures |tail.probs[i]| > 0
          {
            assert tail.probs[i] == out.probs[i + 1];
          }
        }
      }
      if PackAll(out, distThreshold, probThreshold).Ok? {
        var r := PackAll(out, distThreshold, probThreshold).value;
        var rest := PackAll(tail, distThreshold, probThreshold).value;
        assert r == [r[0]] + rest;
        forall i | 0 <= i < |r|
          ensures |out.probs[i]| > 0
          ensures r[i] == Decide(out.labels[i], out.probs[i], out.dists[i], distThreshold, probThreshold)
        {
          if i > 0 {
            assert r[i] == rest[i - 1];
            assert out.labels[i] == tail.labels[i - 1];
            assert out.probs[i] == tail.probs[i - 1];
            assert out.dists[i] == tail.dists[i - 1];
          }
        }
      }
    }
  }

  /** `predict` before `fit` always fails with PredictionError. */
  lemma PredictBeforeFit(answer: ClassifierOutput, distThreshold: real, probThreshold: real)
    ensures Predict(Unfitted, answer, distThreshold, probThreshold) == Err(PredictionError)
  {
  }

  /** A fitted classifier's prediction succeeds exactly when every reached
      probability row is non-empty; then the results follow the inputs. */
  lemma PredictSpec(c: Classifier, answer: ClassifierOutput, distThreshold: real, probThreshold: real)
    ensures Predict(c, answer, distThreshold, probThreshold).Ok? <==> c.Fitted? && RowsNonEmpty(answer)
    ensures Predict(c, answer, distThreshold, probThreshold).Err? ==>
              Predict(c, answer, distThreshold, probThreshold).error == PredictionError
    ensures Predict(c, answer, distThreshold, probThreshold).Ok? ==>
              var r := Predict(c, answer, distThreshold, probThreshold).value;
              && |r| == Min3(|answer.labels|, |answer.probs|, |answer.dists|)
              && forall i :: 0 <= i < |r| ==>
                   && r[i].dist == answer.dists[i]
                   && (Kept(answer.probs[i], answer.dists[i], distThreshold, probThreshold) ==>
                         r[i] == Prediction(answer.labels[i], Max(answer.probs[i]), answer.dists[i]))
                   && (!Kept(answer.probs[i], answer.dists[i], distThreshold, probThreshold) ==>
                         r[i] == Prediction(UnknownLabel, 1.0, answer.dists[i]))
  {
    PackAllSpec(answer, distThreshold, probThreshold);
  }

  /** Training pairs every face with its label: equal lengths always train,
      and a set with one real label is padded to two distinct labels. */
  lemma TrainPadsToTwoLabels(faces: seq<Encoding>, labels: seq<string>)
    requires |faces| == |labels| && |labels| >= 1
    requires NullLabel !in labels
    ensures Train(faces, labels).Ok?
    ensures |DistinctLabels(Train(faces, labels).value.labels)| >= 2
  {
    var p := Pad(faces, labels);
    if |DistinctLabels(labels)| < 2 {
      assert labels[0] in DistinctLabels(p.1);
      assert NullLabel in DistinctLabels(p.1) by {
        assert p.1[|labels|] == NullLabel;
      }
      assert labels[0] != NullLabel;
      assert {labels[0], NullLabel} <= DistinctLabels(p.1);
      assert |{labels[0], NullLabel}| == 2;
      SubsetCard({labels[0], NullLabel}, DistinctLabels(p.1));
    }
  }

  lemma SubsetCard<T>(a: set<T>, b: set<T>)
    requires a <= b
    ensures |a| <= |b|
  {
    assert b == a + (b - a);
  }
}
