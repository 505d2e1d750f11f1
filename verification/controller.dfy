/** controller/client.py: the `Client` that ties the store, the in-memory
    model and the recognition layer together. The model lock is left out:
    every operation here runs to completion before the next one starts. */
module Controller {
  import opened Base
  import opened Recognition
  import opened Store
  import opened Utils

  /** `Client`: the database and `self.model`, the cached classifier. */
  datatype Client = Client(db: Database, cache: Option<Classifier>)

  /** `datetime.utcnow()` (for `createdAt`) and `get_datetime()` (the
      counter's day) at the time of the call. */
  datatype Clock = Clock(now: int, date: string)

  /** The client after an operation, and its return value or the exception
      it raised. */
  datatype Call<T> = Call(client: Client, result: Result<T>)

  /** The training set `get_train` returns. */
  datatype TrainingSet = TrainingSet(x: seq<Encoding>, y: seq<string>, face: Encoding, tag: string)

  /** `predict_image`'s answer: caption, notes and references; the
      labelled image is not modelled. */
  datatype PredictReply = PredictReply(predictions: seq<Prediction>, caption: string,
                                       notes: seq<NoteEntry>, references: seq<Reference>)

  function Encodings(faces: seq<Face>): (xs: seq<Encoding>)
    ensures |xs| == |faces|
    ensures forall i :: 0 <= i < |faces| ==> xs[i] == faces[i].encoding
  {
    seq(|faces|, i requires 0 <= i < |faces| => faces[i].encoding)
  }

  function Tags(faces: seq<Face>): (ys: seq<string>)
    ensures |ys| == |faces|
    ensures forall i :: 0 <= i < |faces| ==> ys[i] == faces[i].tag
  {
    seq(|faces|, i requires 0 <= i < |faces| => faces[i].tag)
  }

  // ---------------------------------------------------------- mention_label

  /** `mention_label(label, note)`: an unknown label raises
      LabelNoteFoundError and writes nothing; otherwise a non-empty note is
      stored and the 'label' counter is bumped. */
  function MentionLabel(c: Client, tag: string, note: Option<string>, date: string): (r: Call<()>)
    ensures r.result.Err? <==> !FindLabel(c.db, tag)
    ensures r.result.Err? ==> r.result.error == LabelNoteFoundError && r.client == c
    ensures r.result.Ok? ==>
              && Count(r.client.db, date, "label") == Count(c.db, date, "label") + 1
              && GetNote(r.client.db, tag) ==
                   (if note.Some? && note.value != "" then note else GetNote(c.db, tag))
              && (forall other :: other != tag ==> GetNote(r.client.db, other) == GetNote(c.db, other))
              && r.client.db.faces == c.db.faces && r.client.db.users == c.db.users
              && r.client.db.models == c.db.models && r.client.cache == c.cache
              && (forall d, f :: (d, f) != (date, "label") ==> Count(r.client.db, d, f) == Count(c.db, d, f))
  {
    if !FindLabel(c.db, tag) then Call(c, Err(LabelNoteFoundError))
    else
      var db1 := if note.Some? && note.value != "" then AddNote(c.db, tag, note.value) else c.db;
      Call(c.(db := UpdateCommandCounter(db1, date, "label")), Ok(()))
  }

  // -------------------------------------------------------------- get_train

  /** `get_train(image_f, label)`: the stored encodings and labels with the
      new face and label appended last. */
  function GetTrain(db: Database, photo: Photo, tag: string): (r: Result<TrainingSet>)
    ensures r.Err? <==> !photo.readable || |photo.faces| != 1
    ensures r.Err? ==> r.error == (if !photo.readable then ImageFileError
                                   else if |photo.faces| == 0 then NoFaceError
                                   else TooManyFacesError)
    ensures r.Ok? ==>
              && |r.value.x| == |r.value.y| == |db.faces| + 1
              && r.value.x == Encodings(db.faces) + [photo.faces[0]]
              && r.value.y == Tags(db.faces) + [tag]
              && r.value.face == photo.faces[0] && r.value.tag == tag
  {
    if !photo.readable then Err(ImageFileError)
    else match GetFaceEncoding(photo)
      case Err(e) => Err(e)
      case Ok(enc) => Ok(TrainingSet(Encodings(db.faces) + [enc], Tags(db.faces) + [tag], enc, tag))
  }

  // ----------------------------------------------------------- update_model

  /** The model document `update_model` inserts. */
  function Record(m: Classifier, count: nat, clock: Clock): ModelRecord {
    ModelRecord(Some(Pickled(m)), count, clock.now)
  }

  /** `update_model(model, faces_count)`: the model goes into memory, is
      inserted into the store, and every older model is deleted. */
  function UpdateModel(c: Client, m: Classifier, count: nat, clock: Clock): (r: Client)
    ensures r.cache == Some(m)
    ensures |r.db.models| == 1
    ensures r.db.faces == c.db.faces && r.db.users == c.db.users
    ensures r.db.notes == c.db.notes && r.db.counters == c.db.counters
  {
    var db := DeleteOutdatedModels(AddModel(c.db, Record(m, count, clock)));
    DeleteKeepsLatest(AddModel(c.db, Record(m, count, clock)));
    Client(db, Some(m))
  }

  /** With a clock that moves forward, the stored model is the new one. */
  lemma UpdateModelKeepsNewest(c: Client, m: Classifier, count: nat, clock: Clock)
    requires forall j :: 0 <= j < |c.db.models| ==> c.db.models[j].createdAt < clock.now
    ensures UpdateModel(c, m, count, clock).db.models == [Record(m, count, clock)]
    ensures GetModel(UpdateModel(c, m, count, clock).db) == Some(Record(m, count, clock))
  {
    AddNewestThenDelete(c.db, Record(m, count, clock));
    assert LatestIndex([Record(m, count, clock)]) == Some(0);
  }

  // ------------------------------------------------------------ train_image

  /** `train_image(image_f, label)` with the recorded face count chosen by
      `padded`: the training-set size, or the length of `x_train` after
      `fit` has padded it in place. */
  function TrainImageCounting(c: Client, photo: Photo, tag: string, clock: Clock, padded: bool): Call<()> {
    match GetTrain(c.db, photo, tag)
    case Err(e) => Call(c, Err(e))
    case Ok(ts) =>
      match Train(ts.x, ts.y)
      case Err(e) => Call(c, Err(e))
      case Ok(m) =>
        var count := if padded then |Pad(ts.x, ts.y).0| else |ts.x|;
        var c1 := UpdateModel(c, m, count, clock);
        var db2 := AddFaces(c1.db, [Face(ts.face, tag, photo)]);
        Call(c1.(db := UpdateCommandCounter(db2, clock.date, "train")), Ok(()))
  }

  /** `train_image` as written: `fit` appends the NULL_LABEL padding to the
      very list whose length is then recorded as `face_count`. */
  function TrainImageAsWritten(c: Client, photo: Photo, tag: string, clock: Clock): Call<()> {
    TrainImageCounting(c, photo, tag, clock, true)
  }

  /** `train_image` recording the number of faces it was trained on. */
  function TrainImage(c: Client, photo: Photo, tag: string, clock: Clock): Call<()> {
    TrainImageCounting(c, photo, tag, clock, false)
  }

  /** A refused photo changes nothing; an accepted one updates the model
      first (in memory and as the only stored model, trained on the stored
      faces plus the new one) and only then stores the new face. */
  lemma TrainImageSpec(c: Client, photo: Photo, tag: string, clock: Clock)
    requires forall j :: 0 <= j < |c.db.models| ==> c.db.models[j].createdAt < clock.now
    ensures var r := TrainImage(c, photo, tag, clock);
      && (r.result.Err? <==> !photo.readable || |photo.faces| != 1)
      && (r.result.Err? ==> r.client == c)
      && (r.result.Ok? ==>
            var m := Fit(Encodings(c.db.faces) + [photo.faces[0]], Tags(c.db.faces) + [tag]);
            && r.client.db.faces == c.db.faces + [Face(photo.faces[0], tag, photo)]
            && r.client.cache == Some(m)
            && r.client.db.models == [Record(m, |r.client.db.faces|, clock)]
            && Count(r.client.db, clock.date, "train") == Count(c.db, clock.date, "train") + 1
            && r.client.db.users == c.db.users && r.client.db.notes == c.db.notes)
  {
    var ts := GetTrain(c.db, photo, tag);
    if ts.Ok? {
      var m := Fit(ts.value.x, ts.value.y);
      UpdateModelKeepsNewest(c, m, |ts.value.x|, clock);
    }
  }

  /** The as-written count is one too many whenever the training set has
      fewer than two distinct labels, as on the very first photo. */
  lemma TrainImageAsWrittenOvercounts(c: Client, photo: Photo, tag: string, clock: Clock)
    requires forall j :: 0 <= j < |c.db.models| ==> c.db.models[j].createdAt < clock.now
    requires photo.readable && |photo.faces| == 1
    requires forall i :: 0 <= i < |c.db.faces| ==> c.db.faces[i].tag == tag
    ensures var r := TrainImageAsWritten(c, photo, tag, clock);
      && r.result.Ok? && |r.client.db.faces| == |c.db.faces| + 1
      && |r.client.db.models| == 1 && r.client.db.models[0].faceCount == |r.client.db.faces| + 1
  {
    var ts := GetTrain(c.db, photo, tag).value;
    assert DistinctLabels(ts.y) <= {tag} by {
      forall l | l in DistinctLabels(ts.y)
        ensures l == tag
      {
        var k :| 0 <= k < |ts.y| && ts.y[k] == l;
        if k < |c.db.faces| {
          assert ts.y[k] == c.db.faces[k].tag;
        }
      }
    }
    SubsetCard(DistinctLabels(ts.y), {tag});
    var m := Fit(ts.x, ts.y);
    assert Train(ts.x, ts.y) == Ok(m);
    assert |Pad(ts.x, ts.y).0| == |ts.x| + 1;
    UpdateModelKeepsNewest(c, m, |ts.x| + 1, clock);
  }

  /** Apart from the recorded face count, the two versions of `train_image`
      behave alike on every clock: the same result, the same cache, the same
      faces, notes, users and counters. When the clock runs forward past
      every stored model, each keeps one stored model, and the two differ
      only in its count, by at most one. */
  lemma TrainImageVariantsAgree(c: Client, photo: Photo, tag: string, clock: Clock)
    ensures var w := TrainImageAsWritten(c, photo, tag, clock);
      var t := TrainImage(c, photo, tag, clock);
      && w.result == t.result
      && w.client.cache == t.client.cache
      && w.client.db.(models := t.client.db.models) == t.client.db
      && (t.result.Err? ==> w.client == t.client)
      && (t.result.Ok? && (forall j :: 0 <= j < |c.db.models| ==> c.db.models[j].createdAt < clock.now) ==>
            && |w.client.db.models| == 1 && |t.client.db.models| == 1
            && w.client.db.models[0] == t.client.db.models[0].(faceCount := w.client.db.models[0].faceCount)
            && t.client.db.models[0].faceCount <= w.client.db.models[0].faceCount <= t.client.db.models[0].faceCount + 1)
  {
    var ts := GetTrain(c.db, photo, tag);
    if ts.Ok? {
      var m := Fit(ts.value.x, ts.value.y);
      assert Train(ts.value.x, ts.value.y) == Ok(m);
      TrainImageCountingSteps(c, photo, tag, clock, false);
      TrainImageCountingSteps(c, photo, tag, clock, true);
      if forall j :: 0 <= j < |c.db.models| ==> c.db.models[j].createdAt < clock.now {
        UpdateModelKeepsNewest(c, m, |ts.value.x|, clock);
        UpdateModelKeepsNewest(c, m, |Pad(ts.value.x, ts.value.y).0|, clock);
      }
    }
  }

  /** An accepted photo: the model update with the chosen count, the new
      face appended, and the 'train' counter bumped. */
  lemma TrainImageCountingSteps(c: Client, photo: Photo, tag: string, clock: Clock, padded: bool)
    requires GetTrain(c.db, photo, tag).Ok?
    ensures var ts := GetTrain(c.db, photo, tag).value;
      var m := Fit(ts.x, ts.y);
      var c1 := UpdateModel(c, m, if padded then |Pad(ts.x, ts.y).0| else |ts.x|, clock);
      var r := TrainImageCounting(c, photo, tag, clock, padded);
      && r.result == Ok(())
      && r.client.cache == Some(m)
      && r.client.db.models == c1.db.models
      && r.client.db.(models := c.db.models) ==
           UpdateCommandCounter(AddFaces(c.db, [Face(ts.face, tag, photo)]), clock.date, "train")
  {
    var ts := GetTrain(c.db, photo, tag).value;
    var m := Fit(ts.x, ts.y);
    assert Train(ts.x, ts.y) == Ok(m);
  }

  /** The concrete discrepancy: on an empty store the first photo is
      recorded with a face count of 2 beside one stored face, where the
      corrected operation records 1. */
  lemma FirstPhotoRecordsTwo(e: Encoding, clock: Clock)
    ensures var r := TrainImage(Client(Empty(), None), Photo(true, [e]), "alice", clock);
      r.result.Ok? && |r.client.db.faces| == 1 && r.client.db.models[0].faceCount == 1
    ensures var r := TrainImageAsWritten(Client(Empty(), None), Photo(true, [e]), "alice", clock);
      r.result.Ok? && |r.client.db.faces| == 1 && r.client.db.models[0].faceCount == 2
  {
    TrainImageSpec(Client(Empty(), None), Photo(true, [e]), "alice", clock);
    TrainImageAsWrittenOvercounts(Client(Empty(), None), Photo(true, [e]), "alice", clock);
  }

  // -------------------------------------------------------------- get_model

  /** `get_model()` of the client: the cached model if there is one, without touching the
      store; otherwise the newest stored model, unpacked and cached. */
  function FetchModel(c: Client): (r: Call<Classifier>)
    ensures r.client.db == c.db
    ensures c.cache.Some? ==> r == Call(c, Ok(c.cache.value))
    ensures r.result.Err? ==> r.client == c
    ensures r.result.Ok? ==> r.client.cache == Some(r.result.value)
    ensures c.cache.None? ==>
              && (GetModel(c.db).None? <==> r.result == Err(NoModelError))
              && ((GetModel(c.db).Some? && GetModel(c.db).value.binData.None?)
                    <==> r.result == Err(NoBinDataError))
              && ((GetModel(c.db).Some? && GetModel(c.db).value.binData == Some(Damaged))
                    <==> r.result == Err(UnpackModelError))
              && (r.result.Ok? ==> GetModel(c.db).value.binData == Some(Pickled(r.result.value)))
  {
    if c.cache.Some? then Call(c, Ok(c.cache.value))
    else match GetModel(c.db)
      case None => Call(c, Err(NoModelError))
      case Some(rec) =>
        match rec.binData
        case None => Call(c, Err(NoBinDataError))
        case Some(Damaged) => Call(c, Err(UnpackModelError))
        case Some(Pickled(m)) => Call(c.(cache := Some(m)), Ok(m))
  }

  /** A second fetch is served from the cache and returns the same model. */
  lemma FetchModelTwice(c: Client)
    ensures FetchModel(c).result.Ok? ==>
              FetchModel(FetchModel(c).client) == Call(FetchModel(c).client, FetchModel(c).result)
  {
  }

  // ---------------------------------------------- extract_encoding_from_image

  /** `extract_encoding_from_image`: no face means ExtractFaceError. */
  function ExtractEncodingFromImage(photo: Photo): (r: Result<seq<Encoding>>)
    ensures r.Err? <==> |photo.faces| == 0
    ensures r.Err? ==> r.error == ExtractFaceError
    ensures r.Ok? ==> r.value == photo.faces && |r.value| > 0
  {
    if |photo.faces| == 0 then Err(ExtractFaceError) else Ok(photo.faces)
  }

  // ---------------------------------------------------------- predict_image

  /** `predict_image(image_f)`; `answer` is what the classifier answers for
      the photo's encodings and `percent` renders a probability. */
  function PredictImage(c: Client, photo: Photo, answer: ClassifierOutput, distThreshold: real,
                        percent: real -> string, date: string): Call<PredictReply> {
    if !photo.readable then Call(c, Err(ImageFileError))
    else match ExtractEncodingFromImage(photo)
      case Err(e) => Call(c, Err(e))
      case Ok(_) =>
        var fetched := FetchModel(c);
        match fetched.result
        case Err(e) => Call(fetched.client, Err(e))
        case Ok(m) =>
          match Predict(m, answer, distThreshold, 0.0)
          case Err(e) => Call(fetched.client, Err(e))
          case Ok(predictions) =>
            var c1 := fetched.client;
            var (refs, notes) := ReferenceNote(c1.db, predictions);
            var reply := PredictReply(predictions, Caption(predictions, percent), notes, refs);
            Call(c1.(db := UpdateCommandCounter(c1.db, date, "predict")), Ok(reply))
  }

  /** The error ladder of `predict_image`: unreadable image, then no face,
      then no usable model; a successful prediction bumps the 'predict'
      counter and nothing else in the store, and the model it used stays
      cached even when prediction fails. */
  lemma PredictImageSpec(c: Client, photo: Photo, answer: ClassifierOutput, distThreshold: real,
                         percent: real -> string, date: string)
    ensures var r := PredictImage(c, photo, answer, distThreshold, percent, date);
      && (!photo.readable ==> r == Call(c, Err(ImageFileError)))
      && (photo.readable && |photo.faces| == 0 ==> r == Call(c, Err(ExtractFaceError)))
      && (photo.readable && |photo.faces| > 0 && FetchModel(c).result.Err? ==>
            r == Call(c, Err(FetchModel(c).result.error)))
      && (r.result.Ok? ==>
            && FetchModel(c).result.Ok?
            && r.client.cache == Some(FetchModel(c).result.value)
            && Predict(FetchModel(c).result.value, answer, distThreshold, 0.0) == Ok(r.result.value.predictions)
            && Count(r.client.db, date, "predict") == Count(c.db, date, "predict") + 1
            && r.client.db.faces == c.db.faces && r.client.db.notes == c.db.notes
            && r.client.db.users == c.db.users && r.client.db.models == c.db.models
            && (r.result.value.references, r.result.value.notes) ==
                 ReferenceNote(c.db, r.result.value.predictions))
  {
  }

  /** With no cached and no stored model, prediction reports NoModelError. */
  lemma PredictWithoutModel(c: Client, photo: Photo, answer: ClassifierOutput, distThreshold: real,
                            percent: real -> string, date: string)
    requires c.cache.None? && |c.db.models| == 0
    requires photo.readable && |photo.faces| > 0
    ensures PredictImage(c, photo, answer, distThreshold, percent, date) == Call(c, Err(NoModelError))
  {
  }

  // ---------------------------------------------------------------- retrain

  /** The loop of `retrain` from face `i` on: each stored image is run
      through the updated encoder and its face is updated in place; the
      first image without exactly one face stops the loop, keeping the
      updates already made. */
  function Reextract(db: Database, redetect: Photo -> Photo, i: nat): (r: (Database, Result<()>))
    requires i <= |db.faces|
    ensures |r.0.faces| == |db.faces|
    ensures r.0.users == db.users && r.0.notes == db.notes
    ensures r.0.models == db.models && r.0.counters == db.counters
    ensures forall j :: 0 <= j < |db.faces| ==>
              r.0.faces[j].tag == db.faces[j].tag && r.0.faces[j].image == db.faces[j].image
    ensures forall j :: 0 <= j < i ==> r.0.faces[j] == db.faces[j]
    ensures r.1.Ok? <==> forall j :: i <= j < |db.faces| ==> |redetect(db.faces[j].image).faces| == 1
    ensures r.1.Ok? ==> forall j :: i <= j < |db.faces| ==>
              r.0.faces[j].encoding == redetect(db.faces[j].image).faces[0]
    decreases |db.faces| - i
  {
    if i == |db.faces| then (db, Ok(()))
    else match GetFaceEncoding(redetect(db.faces[i].image))
      case Err(e) => (db, Err(e))
      case Ok(enc) => Reextract(UpdateFace(db, i, enc), redetect, i + 1)
  }

  /** `retrain()`: nothing happens without stored faces; otherwise every
      face is re-extracted, the model retrained on all of them and recorded
      with the number of faces, and the 'retrain' counter bumped. */
  function Retrain(c: Client, redetect: Photo -> Photo, clock: Clock): (r: Call<()>)
    ensures |c.db.faces| == 0 ==> r == Call(c, Ok(()))
    ensures r.result.Ok? <==> forall j :: 0 <= j < |c.db.faces| ==> |redetect(c.db.faces[j].image).faces| == 1
    ensures r.client.db.users == c.db.users && r.client.db.notes == c.db.notes
  {
    if |c.db.faces| == 0 then Call(c, Ok(()))
    else
      var (db1, status) := Reextract(c.db, redetect, 0);
      match status
      case Err(e) => Call(c.(db := db1), Err(e))
      case Ok(_) =>
        match Train(Encodings(db1.faces), Tags(db1.faces))
        case Err(e) => Call(c.(db := db1), Err(e))
        case Ok(m) =>
          var c1 := UpdateModel(c.(db := db1), m, |db1.faces|, clock);
          Call(c1.(db := UpdateCommandCounter(c1.db, clock.date, "retrain")), Ok(()))
  }

  /** `retrain` succeeds exactly when every stored image still shows one
      face to the updated encoder; then each face carries its new encoding
      under its old label, the model is fitted on them all and recorded
      with the number of faces, and the 'retrain' counter is bumped. On
      failure the model is left alone. */
  lemma RetrainSpec(c: Client, redetect: Photo -> Photo, clock: Clock)
    requires |c.db.faces| > 0
    requires forall j :: 0 <= j < |c.db.models| ==> c.db.models[j].createdAt < clock.now
    ensures var r := Retrain(c, redetect, clock);
      && (r.result.Ok? <==> forall j :: 0 <= j < |c.db.faces| ==> |redetect(c.db.faces[j].image).faces| == 1)
      && (r.result.Err? ==> r.client.cache == c.cache && r.client.db.models == c.db.models)
      && |r.client.db.faces| == |c.db.faces|
      && (forall j :: 0 <= j < |c.db.faces| ==>
            r.client.db.faces[j].tag == c.db.faces[j].tag && r.client.db.faces[j].image == c.db.faces[j].image)
      && (r.result.Ok? ==>
            var m := Fit(Encodings(r.client.db.faces), Tags(r.client.db.faces));
            && (forall j :: 0 <= j < |c.db.faces| ==>
                  r.client.db.faces[j].encoding == redetect(c.db.faces[j].image).faces[0])
            && r.client.cache == Some(m)
            && r.client.db.models == [Record(m, |c.db.faces|, clock)]
            && Count(r.client.db, clock.date, "retrain") == Count(c.db, clock.date, "retrain") + 1)
  {
    var (db1, status) := Reextract(c.db, redetect, 0);
    var r := Retrain(c, redetect, clock);
    if status.Ok? {
      var m := Fit(Encodings(db1.faces), Tags(db1.faces));
      assert Train(Encodings(db1.faces), Tags(db1.faces)) == Ok(m);
      var c1 := UpdateModel(c.(db := db1), m, |db1.faces|, clock);
      UpdateModelKeepsNewest(c.(db := db1), m, |db1.faces|, clock);
      assert r == Call(c1.(db := UpdateCommandCounter(c1.db, clock.date, "retrain")), Ok(()));
      assert r.client.db.faces == db1.faces;
    } else {
      assert r == Call(c.(db := db1), status);
    }
  }
}
