/** model/telegram_client.py: the per-user command state machine of
    `TelegramClient`. Each handler is a transition from the sessions and the
    client to new ones plus the texts it replies with; the transport, the
    typing indicators and the asynchronous dispatch are not modelled. */
module Telegram {
  import opened Base
  import opened Text
  import Recognition
  import opened Store
  import Utils
  import Controller

  /** `str(update.message.from_user)`, the key of both session maps. */
  type User = string

  /** The values of `self.state`: '' (the defaultdict default), 'Train',
      'Note', 'Done' and 'Predict'. */
  datatype Mode = Idle | Train | Note | Done | Predict

  /** `self.state` and `self.label`; an absent key reads as Idle or "". */
  datatype Sessions = Sessions(state: map<User, Mode>, tags: map<User, string>)

  function StateOf(s: Sessions, u: User): Mode {
    if u in s.state then s.state[u] else Idle
  }

  function TagOf(s: Sessions, u: User): string {
    if u in s.tags then s.tags[u] else ""
  }

  function NoSessions(): Sessions {
    Sessions(map[], map[])
  }

  /** Every user other than `u` reads the same state and label. */
  ghost predicate OthersUnchanged(s: Sessions, t: Sessions, u: User) {
    forall v :: v != u ==> StateOf(t, v) == StateOf(s, v) && TagOf(t, v) == TagOf(s, v)
  }

  /** A user in 'Train' or 'Note' always has a non-empty label. */
  ghost predicate Consistent(s: Sessions) {
    forall u :: (StateOf(s, u) == Train || StateOf(s, u) == Note) ==> TagOf(s, u) != ""
  }

  /** The texts the handlers reply with, one constructor per message. */
  datatype Reply =
    // model/telegram_client.py
    | TrainUsage                        // 'Example: /train test1'
    | TrainOn(tag: string)
    | NoteUsage                         // 'Example: /note label1'
    | NoteOn(tag: string, botName: string)
    | LabelMissing                      // 'Label does not exist. ...'
    | NoteUpdated(tag: string)
    | NotInNoteState
    | DoneWithTag(tag: string)
    | NoCurrentTag
    | LabelTooShort                     // 'Label must be at least length of one'
    | CannotDownload
    | FileTooLarge
    | ModelTrained(tag: string)
    | NoFaceFound
    | MoreThanOneFace
    | ModelErrorReply
    | DatabaseErrorReply
    | ClientErrorReply
    | NoModelTrained
    | PredictionPhoto(caption: string)
    | NotesText(text: string)
    | ReferencePhoto(tag: string)      // 'references: <label>'
    | Retrained
    // model/user_model.py
    | PermissionDenied
    | Help(role: Role)
    | MemberList(kind: Role, names: set<string>)
    | Added(kind: Role, name: string)
    | AddUsage(kind: Role)
    | RemoveMenu(kind: Role, name: string)

  /** The bot: sessions, the controller client behind the callbacks, and
      `self.username`, the bot's own username. */
  datatype Bot = Bot(sessions: Sessions, client: Controller.Client, botName: string)

  /** A handler's effect: the bot afterwards and what it replied, in order. */
  datatype Handled = Handled(bot: Bot, replies: seq<Reply>)

  /** The photo download: `Failed` stands for the IndexError, AttributeError
      or IOError of fetching the largest size; `size` is `sys.getsizeof`. */
  datatype Download = Failed | Downloaded(size: nat, photo: Recognition.Photo)

  /** What the outside world answers during one update: the clock, what the
      classifier answers, the distance threshold of the configuration, the
      percentage formatting and the updated encoder used by `/retrain`. */
  datatype Env = Env(clock: Controller.Clock, answer: Recognition.ClassifierOutput, distThreshold: real,
                     percent: real -> string, redetect: Recognition.Photo -> Recognition.Photo)

  const MaxFileSize: nat := 16 * 1024 * 1024

  // ----------------------------------------------------------- extract_args

  /** The text `extract_args` splits on: '/<command> '. */
  function Marker(command: string): (m: string)
    ensures |m| == |command| + 2 && m[0] == '/' && m[|m| - 1] == ' '
  {
    "/" + command + " "
  }

  /** `extract_args(command, text)`: the second piece of the split on the
      marker, when there is one and it is not empty. */
  function ExtractArgs(command: string, text: string): (r: Option<string>)
    ensures r.Some? ==> r.value != ""
  {
    var parts := Split(text, Marker(command));
    if |parts| < 2 then None
    else if parts[1] == "" then None
    else Some(parts[1])
  }

  /** Without the marker there is no argument; with it, the argument is the
      text after its first occurrence up to the next one, when that is not
      empty, and it never contains the marker. */
  lemma ExtractArgsSpec(command: string, text: string)
    ensures !Occurs(text, Marker(command)) ==> ExtractArgs(command, text).None?
    ensures Occurs(text, Marker(command)) ==>
              var m := Marker(command);
              var rest := text[IndexOf(text, m).value + |m|..];
              ExtractArgs(command, text) == (if Head(rest, m) == "" then None else Some(Head(rest, m)))
    ensures ExtractArgs(command, text).Some? ==> !Occurs(ExtractArgs(command, text).value, Marker(command))
  {
    var m := Marker(command);
    match IndexOf(text, m)
    case None =>
    case Some(i) =>
      var rest := text[i + |m|..];
      assert Split(text, m) == [text[..i]] + Split(rest, m);
      SplitPiecesFree(rest, m);
  }

  /** A bare '/train' has no argument. */
  lemma ExtractArgsBare()
    ensures ExtractArgs("train", "/train") == None
  {
    assert !Occurs("/train", Marker("train"));
  }

  /** '/train test1' has the argument 'test1'. */
  lemma ExtractArgsOne()
    ensures ExtractArgs("train", "/train test1") == Some("test1")
  {
    var m := Marker("train");
    assert OccursAt("/train test1", m, 0);
    assert "/train test1"[7..] == "test1";
    assert !Occurs("test1", m);
    assert Split("/train test1", m) == ["", "test1"];
  }

  // ------------------------------------------------------------ clean_state

  /** `clean_state(from_user)`: forgets the user's state and label. */
  function CleanState(s: Sessions, u: User): (r: Sessions)
    ensures StateOf(r, u) == Idle && TagOf(r, u) == ""
    ensures OthersUnchanged(s, r, u)
  {
    Sessions(s.state - {u}, s.tags - {u})
  }

  // -------------------------------------------------- train_command_handler

  /** `train_command_handler`: with an argument the user enters 'Train'
      under that label; without one nothing changes. */
  function TrainCommand(s: Sessions, u: User, text: string): (r: (Sessions, Reply))
    ensures ExtractArgs("train", text).None? ==> r == (s, TrainUsage)
    ensures ExtractArgs("train", text).Some? ==>
              && StateOf(r.0, u) == Train && TagOf(r.0, u) == ExtractArgs("train", text).value
              && r.1 == TrainOn(ExtractArgs("train", text).value)
    ensures OthersUnchanged(s, r.0, u)
  {
    match ExtractArgs("train", text)
    case None => (s, TrainUsage)
    case Some(a) => (Sessions(s.state[u := Train], s.tags[u := a]), TrainOn(a))
  }

  // --------------------------------------------------- done_command_handler

  /** `done_command_handler`: always 'Done' and no label; the reply names
      the label only when there was a non-empty one. */
  function DoneCommand(s: Sessions, u: User): (r: (Sessions, Reply))
    ensures StateOf(r.0, u) == Done && TagOf(r.0, u) == ""
    ensures r.1 == (if TagOf(s, u) != "" then DoneWithTag(TagOf(s, u)) else NoCurrentTag)
    ensures OthersUnchanged(s, r.0, u)
  {
    var t := TagOf(s, u);
    var after := Sessions(s.state[u := Done], s.tags - {u});
    if t != "" then (after, DoneWithTag(t)) else (after, NoCurrentTag)
  }

  /** '/train a', '/done', '/done': the first done names 'a', the second
      names no label. */
  lemma TrainDoneDone(s: Sessions, u: User)
    ensures var (s1, r1) := TrainCommand(s, u, "/train a");
      var (s2, r2) := DoneCommand(s1, u);
      var (s3, r3) := DoneCommand(s2, u);
      && r1 == TrainOn("a") && r2 == DoneWithTag("a") && r3 == NoCurrentTag
      && StateOf(s3, u) == Done
  {
    var m := Marker("train");
    assert OccursAt("/train a", m, 0);
    assert "/train a"[7..] == "a";
    assert !Occurs("a", m);
    assert Split("/train a", m) == ["", "a"];
  }

  // --------------------------------------------------- note_command_handler

  /** `note_command_handler`: the label must exist (checked through the
      mention callback without a note, which counts as a 'label' command);
      then the user enters 'Note' under that label. */
  function NoteCommand(b: Bot, u: User, text: string, date: string): (r: Handled)
    ensures r.bot.botName == b.botName
    ensures ExtractArgs("note", text).None? ==> r == Handled(b, [NoteUsage])
    ensures ExtractArgs("note", text).Some? && !FindLabel(b.client.db, ExtractArgs("note", text).value) ==>
              r == Handled(b, [LabelMissing])
    ensures ExtractArgs("note", text).Some? && FindLabel(b.client.db, ExtractArgs("note", text).value) ==>
              var a := ExtractArgs("note", text).value;
              && StateOf(r.bot.sessions, u) == Note && TagOf(r.bot.sessions, u) == a
              && r.replies == [NoteOn(a, b.botName)]
              && r.bot.client == Controller.MentionLabel(b.client, a, None, date).client
    ensures OthersUnchanged(b.sessions, r.bot.sessions, u)
  {
    match ExtractArgs("note", text)
    case None => Handled(b, [NoteUsage])
    case Some(a) =>
      var call := Controller.MentionLabel(b.client, a, None, date);
      if call.result.Err? then Handled(b.(client := call.client), [LabelMissing])
      else
        var s := Sessions(b.sessions.state[u := Note], b.sessions.tags[u := a]);
        Handled(Bot(s, call.client, b.botName), [NoteOn(a, b.botName)])
  }

  // -------------------------------------------------------- mention_handler

  /** The note text with every '@<bot username>' taken out. */
  function StripMention(text: string, botName: string): (r: string)
    ensures !Occurs(text, "@" + botName) ==> r == text
  {
    ReplaceAll(text, "@" + botName, "")
  }

  /** `mention_handler`: outside 'Note' only a hint is sent; inside it the
      user's state is cleaned before the callback, whatever it then does,
      and 'Note updated' is sent even after 'Label does not exist'. */
  function MentionHandler(b: Bot, u: User, text: string, date: string): (r: Handled)
    ensures r.bot.botName == b.botName
    ensures StateOf(b.sessions, u) != Note ==> r == Handled(b, [NotInNoteState])
    ensures StateOf(b.sessions, u) == Note ==>
              var tag := TagOf(b.sessions, u);
              var call := Controller.MentionLabel(b.client, tag, Some(StripMention(text, b.botName)), date);
              && StateOf(r.bot.sessions, u) == Idle && TagOf(r.bot.sessions, u) == ""
              && r.bot.client == call.client
              && r.replies == (if call.result.Err? then [LabelMissing, NoteUpdated(tag)] else [NoteUpdated(tag)])
    ensures OthersUnchanged(b.sessions, r.bot.sessions, u)
  {
    if StateOf(b.sessions, u) != Note then Handled(b, [NotInNoteState])
    else
      var tag := TagOf(b.sessions, u);
      var note := StripMention(text, b.botName);
      var s := CleanState(b.sessions, u);
      var call := Controller.MentionLabel(b.client, tag, Some(note), date);
      var replies := if call.result.Err? then [LabelMissing, NoteUpdated(tag)] else [NoteUpdated(tag)];
      Handled(Bot(s, call.client, b.botName), replies)
  }

  /** For a trained label, the stored note is the message with every
      mention of the bot removed, unless nothing else was written. */
  lemma MentionStoresStrippedNote(b: Bot, u: User, text: string, date: string)
    requires StateOf(b.sessions, u) == Note
    requires FindLabel(b.client.db, TagOf(b.sessions, u))
    ensures var r := MentionHandler(b, u, text, date);
      var note := StripMention(text, b.botName);
      && r.replies == [NoteUpdated(TagOf(b.sessions, u))]
      && GetNote(r.bot.client.db, TagOf(b.sessions, u)) ==
           (if note != "" then Some(note) else GetNote(b.client.db, TagOf(b.sessions, u)))
  {
  }

  // ---------------------------------------------------------- train_handler

  /** The replies of `train_handler`'s except clauses, in their order; an
      exception none of them catches produces no reply. */
  function TrainFailure(e: Error): (replies: seq<Reply>)
    ensures e.IsFaceRecognitionError() || e.IsClientError() || e == DatabaseError ==> |replies| == 1
  {
    if e == NoFaceError then [NoFaceFound]
    else if e == TooManyFacesError then [MoreThanOneFace]
    else if e.IsFaceRecognitionError() then [ModelErrorReply]
    else if e == DatabaseError then [DatabaseErrorReply]
    else if e.IsClientError() then [ClientErrorReply]
    else []
  }

  /** `train_handler`: refuses an empty label, a failed download and an
      oversized file without calling back; otherwise trains on the photo
      under the user's label. Sessions are never changed. */
  function TrainHandler(b: Bot, u: User, download: Download, env: Env): (r: Handled)
    ensures r.bot.sessions == b.sessions && r.bot.botName == b.botName
    ensures TagOf(b.sessions, u) == "" ==> r == Handled(b, [LabelTooShort])
    ensures TagOf(b.sessions, u) != "" && download.Failed? ==> r == Handled(b, [CannotDownload])
    ensures TagOf(b.sessions, u) != "" && download.Downloaded? && download.size > MaxFileSize ==>
              r == Handled(b, [FileTooLarge])
    ensures TagOf(b.sessions, u) != "" && download.Downloaded? && download.size <= MaxFileSize ==>
              var call := Controller.TrainImage(b.client, download.photo, TagOf(b.sessions, u), env.clock);
              && r.bot.client == call.client
              && r.replies == (if call.result.Ok? then [ModelTrained(TagOf(b.sessions, u))]
                               else TrainFailure(call.result.error))
  {
    var tag := TagOf(b.sessions, u);
    if tag == "" then Handled(b, [LabelTooShort])
    else match download
      case Failed => Handled(b, [CannotDownload])
      case Downloaded(size, photo) =>
        if size > MaxFileSize then Handled(b, [FileTooLarge])
        else
          var call := Controller.TrainImage(b.client, photo, tag, env.clock);
          var replies := if call.result.Ok? then [ModelTrained(tag)] else TrainFailure(call.result.error);
          Handled(b.(client := call.client), replies)
  }

  // -------------------------------------------------------- predict_handler

  /** The replies of `predict_handler`'s except clauses, in their order. */
  function PredictFailure(e: Error): (replies: seq<Reply>)
    ensures e.IsFaceRecognitionError() || e.IsClientError() || e == DatabaseError ==> |replies| == 1
  {
    if e == ExtractFaceError then [NoFaceFound]
    else if e == NoModelError then [NoModelTrained]
    else if e.IsFaceRecognitionError() then [ModelErrorReply]
    else if e == DatabaseError then [DatabaseErrorReply]
    else if e.IsClientError() then [ClientErrorReply]
    else []
  }

  /** The notes message: one '<label>: <note>' line per entry. */
  function NotesMessage(notes: seq<Utils.NoteEntry>): (m: string)
    ensures m == "" <==> |notes| == 0
    ensures |notes| > 0 ==> m[|m| - 1] == '\n'
    decreases |notes|
  {
    if |notes| == 0 then ""
    else notes[0].tag + ": " + notes[0].note + "\n" + NotesMessage(notes[1..])
  }

  /** One 'references: <label>' photo per reference. */
  function ReferencePhotos(refs: seq<Utils.Reference>): (replies: seq<Reply>)
    ensures |replies| == |refs|
    ensures forall i :: 0 <= i < |refs| ==> replies[i] == ReferencePhoto(refs[i].tag)
  {
    seq(|refs|, i requires 0 <= i < |refs| => ReferencePhoto(refs[i].tag))
  }

  /** `predict_handler`: refuses a failed download and an oversized file;
      otherwise predicts and sends the captioned photo, the notes message
      and one photo per reference. */
  function PredictHandler(b: Bot, download: Download, env: Env): (r: Handled)
    ensures r.bot.sessions == b.sessions && r.bot.botName == b.botName
    ensures download.Failed? ==> r == Handled(b, [CannotDownload])
    ensures download.Downloaded? && download.size > MaxFileSize ==> r == Handled(b, [FileTooLarge])
    ensures download.Downloaded? && download.size <= MaxFileSize ==>
              var call := Controller.PredictImage(b.client, download.photo, env.answer, env.distThreshold,
                                                  env.percent, env.clock.date);
              && r.bot.client == call.client
              && (call.result.Err? ==> r.replies == PredictFailure(call.result.error))
              && (call.result.Ok? ==>
                    && |r.replies| == 2 + |call.result.value.references|
                    && r.replies[0] == PredictionPhoto(call.result.value.caption)
                    && r.replies[1] == NotesText(NotesMessage(call.result.value.notes))
                    && r.replies[2..] == ReferencePhotos(call.result.value.references))
  {
    match download
    case Failed => Handled(b, [CannotDownload])
    case Downloaded(size, photo) =>
      if size > MaxFileSize then Handled(b, [FileTooLarge])
      else
        var call := Controller.PredictImage(b.client, photo, env.answer, env.distThreshold,
                                            env.percent, env.clock.date);
        match call.result
        case Err(e) => Handled(b.(client := call.client), PredictFailure(e))
        case Ok(reply) =>
          var sent := [PredictionPhoto(reply.caption), NotesText(NotesMessage(reply.notes))]
                      + ReferencePhotos(reply.references);
          assert sent[2..] == ReferencePhotos(reply.references);
          Handled(b.(client := call.client), sent)
  }

  // ---------------------------------------------------------- photo_handler

  /** `photo_handler`: a photo trains only in state 'Train'. */
  function PhotoHandler(b: Bot, u: User, download: Download, env: Env): (r: Handled)
    ensures r.bot.sessions == b.sessions
  {
    if StateOf(b.sessions, u) == Train then TrainHandler(b, u, download, env)
    else PredictHandler(b, download, env)
  }

  /** A photo goes to training when the state is 'Train' and to prediction
      otherwise, and prediction never stores a face. */
  lemma PhotoRouting(b: Bot, u: User, download: Download, env: Env)
    ensures StateOf(b.sessions, u) == Train ==> PhotoHandler(b, u, download, env) == TrainHandler(b, u, download, env)
    ensures StateOf(b.sessions, u) != Train ==>
              && PhotoHandler(b, u, download, env) == PredictHandler(b, download, env)
              && PhotoHandler(b, u, download, env).bot.client.db.faces == b.client.db.faces
  {
    if StateOf(b.sessions, u) != Train && download.Downloaded? && download.size <= MaxFileSize {
      Controller.PredictImageSpec(b.client, download.photo, env.answer, env.distThreshold, env.percent, env.clock.date);
    }
  }

  /** In consistent sessions a photo routed to training always has a label,
      so the empty-label refusal never fires from `photo_handler`. */
  lemma RoutedTrainingHasLabel(b: Bot, u: User, download: Download, env: Env)
    requires Consistent(b.sessions)
    requires StateOf(b.sessions, u) == Train
    ensures PhotoHandler(b, u, download, env).replies != [LabelTooShort]
  {
    assert TagOf(b.sessions, u) != "";
  }

  /** In 'Train' with a label, a photo without a face or with several is
      refused with its own reply and stores nothing; a photo with one face
      is stored under the label and confirmed. */
  lemma TrainPhotoByFaceCount(b: Bot, u: User, size: nat, photo: Recognition.Photo, env: Env)
    requires StateOf(b.sessions, u) == Train && TagOf(b.sessions, u) != ""
    requires size <= MaxFileSize && photo.readable
    ensures var r := PhotoHandler(b, u, Downloaded(size, photo), env);
      && (|photo.faces| == 0 ==> r == Handled(b, [NoFaceFound]))
      && (|photo.faces| > 1 ==> r == Handled(b, [MoreThanOneFace]))
      && (|photo.faces| == 1 ==>
            && r.replies == [ModelTrained(TagOf(b.sessions, u))]
            && r.bot.client.db.faces == b.client.db.faces + [Face(photo.faces[0], TagOf(b.sessions, u), photo)])
  {
  }

  /** A photo with a face but no model anywhere is answered with 'No model
      trained for prediction'. */
  lemma PredictWithoutModelReply(b: Bot, u: User, size: nat, photo: Recognition.Photo, env: Env)
    requires StateOf(b.sessions, u) != Train
    requires b.client.cache.None? && |b.client.db.models| == 0
    requires size <= MaxFileSize && photo.readable && |photo.faces| > 0
    ensures PhotoHandler(b, u, Downloaded(size, photo), env) == Handled(b, [NoModelTrained])
  {
    Controller.PredictWithoutModel(b.client, photo, env.answer, env.distThreshold, env.percent, env.clock.date);
  }

  // -------------------------------------------------------- retrain handler

  /** `retrain_command_handler`: retrains and confirms; an exception from
      the callback goes unanswered to the error handler. */
  function RetrainCommand(b: Bot, env: Env): (r: Handled)
    ensures r.bot.sessions == b.sessions && r.bot.botName == b.botName
    ensures r.bot.client == Controller.Retrain(b.client, env.redetect, env.clock).client
    ensures r.replies == [Retrained] || r.replies == []
    ensures r.replies == [Retrained] <==>
              forall j :: 0 <= j < |b.client.db.faces| ==> |env.redetect(b.client.db.faces[j].image).faces| == 1
  {
    var call := Controller.Retrain(b.client, env.redetect, env.clock);
    Handled(b.(client := call.client), if call.result.Ok? then [Retrained] else [])
  }

  // -------------------------------------------------------------- invariant

  /** Every state-changing handler keeps the sessions consistent. */
  lemma HandlersKeepConsistent(b: Bot, u: User, text: string, date: string)
    requires Consistent(b.sessions)
    ensures Consistent(TrainCommand(b.sessions, u, text).0)
    ensures Consistent(DoneCommand(b.sessions, u).0)
    ensures Consistent(CleanState(b.sessions, u))
    ensures Consistent(NoteCommand(b, u, text, date).bot.sessions)
    ensures Consistent(MentionHandler(b, u, text, date).bot.sessions)
  {
    var s := b.sessions;
    forall v | StateOf(TrainCommand(s, u, text).0, v) == Train || StateOf(TrainCommand(s, u, text).0, v) == Note
      ensures TagOf(TrainCommand(s, u, text).0, v) != ""
    {
      if v != u {
        assert StateOf(s, v) == StateOf(TrainCommand(s, u, text).0, v);
      }
    }
    forall v | StateOf(DoneCommand(s, u).0, v) == Train || StateOf(DoneCommand(s, u).0, v) == Note
      ensures TagOf(DoneCommand(s, u).0, v) != ""
    {
      assert v != u;
      assert StateOf(s, v) == StateOf(DoneCommand(s, u).0, v);
    }
    forall v | StateOf(CleanState(s, u), v) == Train || StateOf(CleanState(s, u), v) == Note
      ensures TagOf(CleanState(s, u), v) != ""
    {
      assert v != u;
      assert StateOf(s, v) == StateOf(CleanState(s, u), v);
    }
    var n := NoteCommand(b, u, text, date).bot.sessions;
    forall v | StateOf(n, v) == Train || StateOf(n, v) == Note
      ensures TagOf(n, v) != ""
    {
      if v != u {
        assert StateOf(s, v) == StateOf(n, v);
      } else if ExtractArgs("note", text).None? || !FindLabel(b.client.db, ExtractArgs("note", text).value) {
        assert StateOf(s, v) == StateOf(n, v);
      }
    }
    var mh := MentionHandler(b, u, text, date).bot.sessions;
    forall v | StateOf(mh, v) == Train || StateOf(mh, v) == Note
      ensures TagOf(mh, v) != ""
    {
      if v != u {
        assert StateOf(s, v) == StateOf(mh, v);
      } else if StateOf(s, u) != Note {
        assert StateOf(s, v) == StateOf(mh, v);
      }
    }
  }
}
