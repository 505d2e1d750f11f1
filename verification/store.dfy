/** The collections of model/database.py as immutable values: users keyed by
    username, faces in insertion order, notes keyed by label, model documents
    in insertion order, and per-day command counters. The MongoDB driver and
    its failures are not modelled. */
module Store {
  import opened Base
  import opened Recognition

  /** The `type` stored with a user: 'user', 'admin' or 'root_admin'. */
  datatype Role = UserRole | AdminRole | RootAdminRole

  /** A document of the faces collection: encoding, label and the packed
      image it was extracted from. */
  datatype Face = Face(encoding: Encoding, tag: string, image: Photo)

  /** A pickled model; unpickling a damaged blob raises UnpicklingError. */
  datatype Blob = Pickled(model: Classifier) | Damaged

  /** A document of the models collection; `binData` is None when the
      document has no 'bin-data' key. */
  datatype ModelRecord = ModelRecord(binData: Option<Blob>, faceCount: nat, createdAt: int)

  datatype Database = Database(
    users: map<string, Role>,
    faces: seq<Face>,
    notes: map<string, string>,
    models: seq<ModelRecord>,
    counters: map<string, map<string, nat>>)

  function Empty(): Database {
    Database(map[], [], map[], [], map[])
  }

  // ---------------------------------------------------------------- notes

  /** `get_note(label)`: the stored note, if any. */
  function GetNote(db: Database, tag: string): Option<string> {
    if tag in db.notes then Some(db.notes[tag]) else None
  }

  /** `add_note(label, note)`: an upsert keyed by label. */
  function AddNote(db: Database, tag: string, note: string): (r: Database)
    ensures GetNote(r, tag) == Some(note)
    ensures forall other :: other != tag ==> GetNote(r, other) == GetNote(db, other)
    ensures r.users == db.users && r.faces == db.faces && r.models == db.models && r.counters == db.counters
  {
    db.(notes := db.notes[tag := note])
  }

  // ---------------------------------------------------------------- faces

  /** Index of the first face carrying `tag`. */
  function FirstWithTag(faces: seq<Face>, tag: string): (r: Option<nat>)
    ensures r.Some? ==> r.value < |faces| && faces[r.value].tag == tag
    ensures r.Some? ==> forall j :: 0 <= j < r.value ==> faces[j].tag != tag
    ensures r.None? ==> forall j :: 0 <= j < |faces| ==> faces[j].tag != tag
  {
    if |faces| == 0 then None
    else if faces[0].tag == tag then Some(0)
    else match FirstWithTag(faces[1..], tag)
      case None => None
      case Some(i) => Some(i + 1)
  }

  /** `get_face({'label': label})`: the first stored face with that label. */
  function GetFace(db: Database, tag: string): Option<Face> {
    match FirstWithTag(db.faces, tag)
    case None => None
    case Some(i) => Some(db.faces[i])
  }

  /** `find_label(label)`: whether any stored face has that label. */
  function FindLabel(db: Database, tag: string): (found: bool)
    ensures found <==> exists i :: 0 <= i < |db.faces| && db.faces[i].tag == tag
  {
    GetFace(db, tag).Some?
  }

  /** `add_faces(faces)`: `insert_many` appends. */
  function AddFaces(db: Database, faces: seq<Face>): (r: Database)
    ensures |r.faces| == |db.faces| + |faces|
    ensures r.faces[..|db.faces|] == db.faces
    ensures r.faces[|db.faces|..] == faces
    ensures r.users == db.users && r.notes == db.notes && r.models == db.models && r.counters == db.counters
  {
    db.(faces := db.faces + faces)
  }

  /** `update_face(face)`: replaces the encoding of the face with that
      identity (its position here); an unknown identity changes nothing. */
  function UpdateFace(db: Database, id: nat, encoding: Encoding): (r: Database)
    ensures |r.faces| == |db.faces|
    ensures forall j :: 0 <= j < |db.faces| && j != id ==> r.faces[j] == db.faces[j]
    ensures id < |db.faces| ==> r.faces[id] == db.faces[id].(encoding := encoding)
    ensures r.users == db.users && r.notes == db.notes && r.models == db.models && r.counters == db.counters
  {
    if id < |db.faces| then db.(faces := db.faces[id := db.faces[id].(encoding := encoding)])
    else db
  }

  // --------------------------------------------------------------- models

  /** Index of the model `find_one({}, sort=[('createdAt', DESCENDING)])`
      returns: the greatest `createdAt`. MongoDB leaves the order among
      equal times open; the model fixes it to the earliest inserted. */
  function LatestIndex(models: seq<ModelRecord>): (r: Option<nat>)
    ensures r.None? <==> |models| == 0
    ensures r.Some? ==> r.value < |models|
    ensures r.Some? ==> forall j :: 0 <= j < |models| ==> models[j].createdAt <= models[r.value].createdAt
    ensures r.Some? ==> forall j :: 0 <= j < r.value ==> models[j].createdAt < models[r.value].createdAt
    decreases |models|
  {
    if |models| == 0 then None
    else
      var last := |models| - 1;
      match LatestIndex(models[..last])
      case None => Some(last)
      case Some(i) =>
        if models[last].createdAt > models[i].createdAt then Some(last) else Some(i)
  }

  /** `get_model()`: the newest model document, or None. */
  function GetModel(db: Database): (r: Option<ModelRecord>)
    ensures r.None? <==> |db.models| == 0
    ensures r.Some? ==> r.value in db.models
    ensures r.Some? ==> forall j :: 0 <= j < |db.models| ==> db.models[j].createdAt <= r.value.createdAt
  {
    match LatestIndex(db.models)
    case None => None
    case Some(i) => Some(db.models[i])
  }

  /** `add_model(model)`: `insert_one` appends. */
  function AddModel(db: Database, m: ModelRecord): (r: Database)
    ensures r.models == db.models + [m]
    ensures r.users == db.users && r.faces == db.faces && r.notes == db.notes && r.counters == db.counters
  {
    db.(models := db.models + [m])
  }

  /** `delete_outdated_models()`: every model but the newest is deleted; an
      empty collection is left alone. */
  function DeleteOutdatedModels(db: Database): (r: Database)
    ensures |r.models| <= 1
    ensures r.users == db.users && r.faces == db.faces && r.notes == db.notes && r.counters == db.counters
  {
    match LatestIndex(db.models)
    case None => db
    case Some(i) => db.(models := [db.models[i]])
  }

  // ---------------------------------------------------------------- users

  /** `find_user(username)`: the stored type, if the username is known. */
  function FindUser(db: Database, name: string): Option<Role> {
    if name in db.users then Some(db.users[name]) else None
  }

  /** `list_user(type)`: the usernames stored with that type. */
  function ListUsers(db: Database, kind: Role): (names: set<string>)
    ensures forall n :: n in names <==> FindUser(db, n) == Some(kind)
  {
    set n | n in db.users && db.users[n] == kind
  }

  /** `add_user(username, type)`: `$setOnInsert` with upsert inserts the
      pair only when the username is absent. */
  function AddUser(db: Database, name: string, kind: Role): (r: Database)
    ensures FindUser(r, name) == if FindUser(db, name).Some? then FindUser(db, name) else Some(kind)
    ensures forall other :: other != name ==> FindUser(r, other) == FindUser(db, other)
    ensures r.faces == db.faces && r.notes == db.notes && r.models == db.models && r.counters == db.counters
  {
    if name in db.users then db else db.(users := db.users[name := kind])
  }

  /** `remove_user(username, type)`: deletes the user only when both the
      username and the type match. */
  function RemoveUser(db: Database, name: string, kind: Role): (r: Database)
    ensures FindUser(r, name) == if FindUser(db, name) == Some(kind) then None else FindUser(db, name)
    ensures forall other :: other != name ==> FindUser(r, other) == FindUser(db, other)
    ensures r.faces == db.faces && r.notes == db.notes && r.models == db.models && r.counters == db.counters
  {
    if name in db.users && db.users[name] == kind then db.(users := db.users - {name}) else db
  }

  // ------------------------------------------------------------- counters

  /** The value of counter `field` on `date`; an absent field reads 0. */
  function Count(db: Database, date: string, field: string): nat {
    if date in db.counters && field in db.counters[date] then db.counters[date][field] else 0
  }

  /** `update_command_counter(field)`: `$inc` with upsert on today's
      document; `date` is what `get_datetime` returns. */
  function UpdateCommandCounter(db: Database, date: string, field: string): (r: Database)
    ensures Count(r, date, field) == Count(db, date, field) + 1
    ensures forall d, f :: (d, f) != (date, field) ==> Count(r, d, f) == Count(db, d, f)
    ensures r.users == db.users && r.faces == db.faces && r.notes == db.notes && r.models == db.models
  {
    var day := if date in db.counters then db.counters[date] else map[];
    var old_ := if field in day then day[field] else 0;
    db.(counters := db.counters[date := day[field := old_ + 1]])
  }

  // --------------------------------------------------------------- lemmas

  /** After an upsert, `get_note` returns the note just written. */
  lemma AddNoteThenGet(db: Database, tag: string, note: string, other: string)
    ensures GetNote(AddNote(db, tag, note), other) ==
            (if other == tag then Some(note) else GetNote(db, other))
  {
  }

  /** `get_face` answers with the first face of that label, and only when
      `find_label` holds. */
  lemma GetFaceSpec(db: Database, tag: string)
    ensures GetFace(db, tag).Some? <==> FindLabel(db, tag)
    ensures GetFace(db, tag).Some? ==>
              exists i :: 0 <= i < |db.faces| && db.faces[i] == GetFace(db, tag).value
                          && db.faces[i].tag == tag
                          && forall j :: 0 <= j < i ==> db.faces[j].tag != tag
  {
    match FirstWithTag(db.faces, tag)
    case None =>
    case Some(i) =>
      assert db.faces[i] == GetFace(db, tag).value;
  }

  /** Deleting outdated models keeps exactly the model `get_model` returns. */
  lemma DeleteKeepsLatest(db: Database)
    ensures GetModel(DeleteOutdatedModels(db)) == GetModel(db)
    ensures DeleteOutdatedModels(db).models ==
            (if GetModel(db).None? then [] else [GetModel(db).value])
  {
    match LatestIndex(db.models)
    case None =>
    case Some(i) =>
      assert LatestIndex([db.models[i]]) == Some(0);
  }

  /** Adding a model newer than every stored one and deleting the outdated
      ones leaves that model alone in the collection. */
  lemma AddNewestThenDelete(db: Database, m: ModelRecord)
    requires forall j :: 0 <= j < |db.models| ==> db.models[j].createdAt < m.createdAt
    ensures DeleteOutdatedModels(AddModel(db, m)).models == [m]
  {
  }
}
