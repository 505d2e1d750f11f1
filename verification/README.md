# face_recognition_telegram, modelled in Dafny

A Telegram bot that learns faces under labels and recognises them in photos.
This project models its decision layer:

- the per-user command state machine of the bot (`/train`, `/done`, `/note`,
  mentions and photos), with its session maps keyed by user;
- the role-based permission gate in front of it, and the commands that manage
  users and admins;
- the controller that builds training sets, caches the model, stores notes and
  assembles prediction replies;
- the guards around the face classifier: exactly one face per training photo,
  equal-length training sets, padding to two labels, no prediction before
  fitting, and the probability and distance thresholds;
- the abstract semantics of the MongoDB collections for users, faces, notes,
  models and daily counters.

Everything is immutable data and pure functions. Each handler maps the bot
before an update to the bot after it, plus the replies it sends.

Modules, one per source file:

- `Base` (base.dfy): `Option`, `Result`, and the exception hierarchy as one
  `Error` datatype. `IsFaceRecognitionError` and `IsClientError` stand for
  the `except` clauses that catch a base class.
- `Text` (text.dfy): the Python string operations the bot relies on.
  - `str.split` with a non-empty separator.
  - `str.replace`, as a split followed by a join.
  - `str.lower`, ASCII only.
  - the `in` substring test.
- `Recognition` (recognition.dfy): model/recognition_model.py.
- `Store` (store.dfy): model/database.py.
- `Utils` (utils.dfy): utils.py.
- `Controller` (controller.dfy): controller/client.py.
- `Telegram` (telegram.dfy): model/telegram_client.py.
- `Permission` (permission.dfy): model/user_model.py.

These are parameters rather than computations:

- The face library's answer for an image (`Photo`: readable or not, one
  encoding per face box).
- The classifier's outputs (`ClassifierOutput`: labels, probability rows,
  distances).
- The clock.
- The percentage formatting.
- The re-encoding used by `/retrain`.
- `PUBLIC_USER`, as `public`.

## Model

| member | source | states |
|---|---|---|
| `Text.IndexOf` | model/telegram_client.py:258 | the position `split` cuts at is the first occurrence of the separator, and there is none exactly when the separator does not occur |
| `Text.SplitJoin` | model/telegram_client.py:258 | joining the pieces of a split with the separator gives back the text, so splitting loses nothing |
| `Text.SplitPiecesFree` | model/telegram_client.py:258 | no piece of a split contains the separator |
| `Text.Split` | model/telegram_client.py:258 | `str.split` with a non-empty separator always yields at least one piece; its meaning is stated by `Text.SplitJoin`, `Text.SplitPiecesFree` and `Text.HeadSpec` |
| `Text.ReplaceAll` | model/telegram_client.py:179 | `str.replace` leaves a text without the pattern unchanged |
| `Text.HeadSpec` | model/telegram_client.py:258-263 | the first piece is the text before the first separator, and what follows it is empty or starts with the separator |
| `Text.Lower` | model/user_model.py:39 | the lowered text keeps the length, holds no upper-case ASCII letter, keeps every other character, and turns each upper-case letter into its lower-case form |
| `Text.LowerKeepsAt` | model/user_model.py:39-41 | a username contains '@' after lowering exactly when it did before |
| `Text.LowerIdempotent` | model/user_model.py:39 | lowering twice is lowering once |
| `Recognition.GetFaceEncoding` | model/recognition_model.py:164-178 | encoding succeeds exactly for one face; zero faces is NoFaceError and more than one is TooManyFacesError |
| `Recognition.RoundSqrt` | model/recognition_model.py:87 | the neighbour count is the integer nearest to the square root of the training-set size |
| `Recognition.Pad` | model/recognition_model.py:88-90 | with fewer than two distinct labels, exactly one zero encoding labelled NULL_LABEL is appended after the untouched training set; otherwise nothing changes |
| `Recognition.Fit` | model/recognition_model.py:81-93 | the fitted classifier is trained on the padded set, with the neighbour count taken from the unpadded size |
| `Recognition.Train` | model/recognition_model.py:189-211 | training fails with TrainSizeMismatch exactly when faces and labels differ in length, and then nothing is fitted |
| `Recognition.TrainPadsToTwoLabels` | model/recognition_model.py:87-92 | any non-empty training set without NULL_LABEL trains into a classifier that has at least two distinct labels |
| `Recognition.Outputs` | model/recognition_model.py:95-143 | an unfitted classifier answers every query with PredictWithoutFitError; a fitted one passes its answer through |
| `Recognition.Max` | model/recognition_model.py:245 | the maximum belongs to the row and bounds every entry |
| `Recognition.Decide` | model/recognition_model.py:245-254 | a face keeps its label and top probability when both thresholds pass; otherwise it becomes ('unknown', 1.0); the distance is always kept |
| `Recognition.PackAllSpec` | model/recognition_model.py:242-255 | the zip loop gives one result per triple up to the shortest input, in order, each decided from its own triple; it fails only when a reached probability row is empty |
| `Recognition.PackAll` | model/recognition_model.py:242-255 | the zip loop of `predict`; what it yields is stated by `Recognition.PackAllSpec` |
| `Recognition.PredictBeforeFit` | model/recognition_model.py:232-257 | predicting with an unfitted classifier reports PredictionError |
| `Recognition.PredictSpec` | model/recognition_model.py:219-257 | prediction succeeds exactly for a fitted classifier whose reached rows are non-empty; then each result carries its input distance and is the label or 'unknown' by the thresholds |
| `Recognition.Predict` | model/recognition_model.py:219-257 | `predict`; its outcome is stated by `Recognition.PredictSpec` and `Recognition.PredictBeforeFit` |
| `Store.AddNote` | model/database.py:33-44 | the note is upserted under its label, and no other label's note changes |
| `Store.AddNoteThenGet` | model/database.py:33-53 | reading a note after writing returns the note just written for that label and the old note for any other |
| `Store.GetNote` | model/database.py:46-53 | `get_note`; what it returns after a write is stated by `Store.AddNoteThenGet` |
| `Store.FindLabel` | model/database.py:55-63 | a label is found exactly when some stored face carries it |
| `Store.GetFaceSpec` | model/database.py:93-102 | a face is returned for a label exactly when the label is found, and it is the first stored face with that label |
| `Store.AddFaces` | model/database.py:65-72 | the new faces are appended after the stored ones, which stay as they were |
| `Store.UpdateFace` | model/database.py:74-82 | only the encoding of the addressed face changes |
| `Store.LatestIndex` | model/database.py:115-123 | the model returned has the greatest creation time, and is the earliest inserted among equals |
| `Store.GetModel` | model/database.py:115-123 | there is a model exactly when one is stored, and it is a stored one with the greatest creation time |
| `Store.AddModel` | model/database.py:84-91 | a model document is appended |
| `Store.DeleteOutdatedModels` | model/database.py:125-139 | at most one model document remains, and the other collections are untouched |
| `Store.DeleteKeepsLatest` | model/database.py:125-139 | the model kept is exactly the one the latest-model query returns, and an empty collection stays empty |
| `Store.AddNewestThenDelete` | model/database.py:130-136 | after inserting a model newer than all others and deleting outdated ones, it is the only model left |
| `Store.ListUsers` | model/database.py:141-148 | the listed usernames are exactly those stored with that type |
| `Store.FindUser` | model/database.py:173-180 | `find_user`; its answers after adding and removing are stated by `Store.AddUser`, `Store.RemoveUser` and `Permission.AddMemberGrantsRole` |
| `Store.AddUser` | model/database.py:150-161 | a username is inserted with the type only when absent; an existing user's type is never overwritten |
| `Store.RemoveUser` | model/database.py:163-171 | a user is deleted only when both the username and the type match; nobody else changes |
| `Store.UpdateCommandCounter` | model/database.py:191-196 | today's counter for the field goes up by one, starting from zero; every other counter stays |
| `Utils.LegalFileSpec` | utils.py:19-21 | the extension check accepts exactly the names ending in 'png' or 'jpg' |
| `Utils.LegalFile` | utils.py:19-21 | `legal_file` as written; what it accepts is stated by `Utils.LegalFileSpec` |
| `Utils.LegalFileRejectsJpeg` | utils.py:13-21 | 'face.jpeg' is refused by the check as written but accepted by the intended one |
| `Utils.LegalFileByExtension` | utils.py:13 | a name passes exactly when it ends with one of the listed extensions |
| `Utils.LegalFileByExtensionWidens` | utils.py:13-21 | the intended check accepts everything the written one does, and differs only on names ending in 'jpeg' |
| `Utils.Lines` | utils.py:62-69 | there is one caption line per result, in input order, each '<label>: <percent>%' |
| `Utils.CaptionSplitsIntoLines` | utils.py:62-69 | the caption is exactly those lines, each ended by a newline |
| `Utils.Caption` | utils.py:62-69 | `predict_caption`; its lines are stated by `Utils.CaptionSplitsIntoLines` |
| `Utils.DistinctSpec` | utils.py:76-80 | the labels handled are each distinct label once, all of them, in first-occurrence order |
| `Utils.NoteFor` | utils.py:81-85 | a note entry holds the stored note, or 'No note' when none is stored |
| `Utils.RefsOf` | utils.py:86-90 | references never outnumber the labels, and each names a label that has a stored face; their order is stated by `Utils.RefsOfInOrder` |
| `Utils.RefsOfComplete` | utils.py:86-90 | every handled label with a stored face gets a reference showing the first such face |
| `Utils.RefsOfInOrder` | utils.py:77-90 | of two references, the earlier one comes from an earlier label |
| `Utils.ReferenceNoteSpec` | utils.py:72-91 | notes are one per distinct predicted label, cover every prediction and hold the stored note or 'No note'; references cover exactly the labels with faces, so there are never more references than notes |
| `Utils.ReferencesFollowNotes` | utils.py:76-90 | the notes are the distinct labels in order, the references follow that order, and no label has two references |
| `Utils.ReferenceNote` | utils.py:72-91 | `predict_reference_note`; stated by `Utils.ReferenceNoteSpec`, `Utils.ReferencesFollowNotes` and `Utils.ReferenceNoteOrder` |
| `Utils.ReferenceNoteOrder` | utils.py:76-80 | notes follow the first occurrence of their labels among the predictions |
| `Controller.MentionLabel` | controller/client.py:107-115 | an unknown label raises LabelNoteFoundError and writes nothing; otherwise a non-empty note is stored, the 'label' counter rises by one, and no other note, counter, face, user, model or cache changes |
| `Controller.GetTrain` | controller/client.py:117-135 | an unreadable image raises ImageFileError, and a face count other than one raises its error; otherwise it returns the stored encodings and labels with the new pair appended last, one longer than the stored faces |
| `Controller.UpdateModel` | controller/client.py:137-154 | the new model is cached, exactly one model document remains, and faces, notes, users and counters are untouched |
| `Controller.UpdateModelKeepsNewest` | controller/client.py:150-153 | with a clock that moves forward, the stored model is the new one and the latest-model query returns it |
| `Controller.TrainImageSpec` | controller/client.py:156-178 | with a clock later than every stored model, a photo is refused exactly when it is unreadable or does not show one face, and then nothing changes; an accepted one caches the model fitted on the stored faces plus the new one, stores it as the only model with the number of faces trained on, stores the face after the others, bumps 'train' and leaves users and notes alone |
| `Controller.TrainImageAsWrittenOvercounts` | controller/client.py:164-169 | as written, the recorded face count is one more than the stored faces whenever the training set has a single label |
| `Controller.FirstPhotoRecordsTwo` | controller/client.py:164-169 | on an empty store, the first photo is recorded as two faces as written and as one face when corrected |
| `Controller.TrainImageVariantsAgree` | controller/client.py:156-178 | on every clock, the written and the corrected `train_image` agree on result, cache, faces, notes, users and counters; with a clock later than every stored model, each keeps one stored model, differing at most in its count, by at most one |
| `Controller.TrainImageAsWritten` | controller/client.py:156-178 | `train_image` as written; stated by `Controller.TrainImageAsWrittenOvercounts` and `Controller.TrainImageVariantsAgree` |
| `Controller.TrainImage` | controller/client.py:156-178 | `train_image` recording the faces trained on; stated by `Controller.TrainImageSpec` |
| `Controller.FetchModel` | controller/client.py:180-211 | a cached model is returned without touching the store; otherwise: no model is NoModelError, a missing 'bin-data' is NoBinDataError, an unreadable blob is UnpackModelError, and a success is cached; a failure changes nothing |
| `Controller.FetchModelTwice` | controller/client.py:183-187 | a second fetch returns the same model from the cache |
| `Controller.ExtractEncodingFromImage` | controller/client.py:239-249 | extraction fails with ExtractFaceError exactly when no face is found |
| `Controller.PredictImageSpec` | controller/client.py:251-279 | errors come in order: unreadable image, no face, no usable model; a success uses the fetched model at probability threshold 0, bumps 'predict', leaves faces, notes, users and models alone, and returns the notes and references for its predictions |
| `Controller.PredictImage` | controller/client.py:251-279 | `predict_image`; stated by `Controller.PredictImageSpec` and `Controller.PredictWithoutModel` |
| `Controller.PredictWithoutModel` | controller/client.py:191-195 | with no cached and no stored model, prediction reports NoModelError and changes nothing |
| `Controller.Reextract` | controller/client.py:94-98 | re-extraction succeeds exactly when every stored image still shows one face; then every face holds its new encoding under its old label and image |
| `Controller.Retrain` | controller/client.py:89-105 | retrain succeeds exactly when every stored image still shows one face (so always when nothing is stored, and then nothing changes); users and notes are never touched |
| `Controller.RetrainSpec` | controller/client.py:89-105 | on success every face is re-encoded, the model is fitted on all of them and stored alone with the face count, and 'retrain' is bumped; on failure the model is left alone |
| `Telegram.ExtractArgs` | model/telegram_client.py:255-263 | an argument, when there is one, is never empty |
| `Telegram.ExtractArgsSpec` | model/telegram_client.py:256-263 | without '/<command> ' there is no argument; with it, the argument is the text after its first occurrence up to the next one, when not empty, and never contains the marker |
| `Telegram.ExtractArgsBare` | test/command_unittest.py:33-40 | a bare '/train' has no argument |
| `Telegram.ExtractArgsOne` | model/telegram_client.py:256-263 | '/train test1' has the argument 'test1' |
| `Telegram.CleanState` | model/telegram_client.py:209-214 | the user's state and label are cleared, and every other user's are unchanged |
| `Telegram.TrainCommand` | model/telegram_client.py:267-278 | with an argument the user enters 'Train' under it; without one nothing changes and the example is sent; other users are unchanged |
| `Telegram.DoneCommand` | model/telegram_client.py:282-291 | the user is always 'Done' without a label, and the reply names the label only when a non-empty one was set |
| `Telegram.TrainDoneDone` | test/command_unittest.py:43-61 | '/train a', '/done', '/done' reply with the label, then the label, then no label |
| `Telegram.NoteCommand` | model/telegram_client.py:150-169 | without an argument only the example is sent; an unknown label only gets 'Label does not exist'; a known one puts the user in 'Note' under it |
| `Telegram.MentionHandler` | model/telegram_client.py:173-195 | outside 'Note' only a hint is sent; inside it the user's state is cleared whatever the callback does, and 'Note updated' follows even the missing-label reply |
| `Telegram.StripMention` | model/telegram_client.py:179 | a text that does not mention the bot is kept as it is |
| `Telegram.MentionStoresStrippedNote` | model/telegram_client.py:176-191 | for a known label the stored note is the message with every '@<bot>' removed, unless that leaves nothing |
| `Telegram.TrainFailure` | model/telegram_client.py:342-354 | every error the except clauses catch gives exactly one reply |
| `Telegram.TrainHandler` | model/telegram_client.py:305-354 | an empty label, a failed download or a file over 16 MiB are refused without training; otherwise the photo trains under the label through the corrected `Controller.TrainImage`, and the reply is the confirmation or the error's message; sessions never change |
| `Telegram.PredictFailure` | model/telegram_client.py:394-406 | every error the except clauses catch gives exactly one reply |
| `Telegram.NotesMessage` | model/telegram_client.py:386-389 | the notes message is empty exactly when there are no notes, and otherwise ends with a newline |
| `Telegram.PredictHandler` | model/telegram_client.py:358-406 | a failed download or an oversized file is refused; a prediction sends the captioned photo, the notes and one photo per reference; sessions never change |
| `Telegram.PhotoHandler` | model/telegram_client.py:295-301 | a photo never changes the sessions |
| `Telegram.PhotoRouting` | model/telegram_client.py:295-301 | a photo trains when the state is 'Train' and is predicted otherwise, and prediction never stores a face |
| `Telegram.RoutedTrainingHasLabel` | model/telegram_client.py:305-313 | in consistent sessions, a photo routed to training is never refused for an empty label |
| `Telegram.TrainPhotoByFaceCount` | test/train_predict_unittest.py:18-41 | in 'Train', a photo with no face or several faces gets its own refusal and changes nothing; one face is stored under the label and confirmed |
| `Telegram.PredictWithoutModelReply` | test/train_predict_unittest.py:44-52 | a face photo with no model anywhere is answered 'No model trained for prediction' |
| `Telegram.RetrainCommand` | model/telegram_client.py:141-146 | the confirmation is the only reply, sent exactly when every stored image still shows one face; otherwise nothing is sent; sessions never change |
| `Telegram.HandlersKeepConsistent` | model/telegram_client.py:91-92 | '/train', '/done', clean-up, '/note' and mentions keep every user in 'Train' or 'Note' holding a non-empty label |
| `Permission.Normalise` | model/user_model.py:39-41 | the key is the lowered username, with '@' prepended exactly when the username has none (so it is one character longer exactly then); it always contains '@' |
| `Permission.NormaliseSeparates` | model/user_model.py:39-41 | two '@'-free usernames share a key only if they are equal once lowered, so normalising never merges different users |
| `Permission.NormaliseIdempotent` | model/user_model.py:39-41 | a normalised username is lowercase and normalises to itself |
| `Permission.NormaliseIgnoresAtAndCase` | model/user_model.py:39-41 | '@Bob', 'Bob' and 'bob' name the same stored user |
| `Permission.GetUserPermission` | model/user_model.py:33-47 | a known username resolves to its stored type; a missing or unknown one resolves to 'user' in a public bot and to nobody otherwise |
| `Permission.AllowedByRank` | model/user_model.py:64-71 | a level accepts exactly the roles ranked at least as high, so root_admin ⊆ admin ⊆ user |
| `Permission.HandlePermission` | model/user_model.py:50-61 | a sender passes when their role is allowed, or when the bot is public, they are unregistered and 'user' is allowed; 'Permission denied.' goes only to a registered role that fails |
| `Permission.Gate` | model/user_model.py:64-89 | a sender passes exactly when they are a person whose resolved role ranks at least as high as the level, and is told 'Permission denied.' exactly when their resolved role ranks lower; channel posts and unresolved senders are ignored |
| `Permission.GateNests` | model/user_model.py:64-89 | passing a stricter level implies passing every looser one, and a denial at a looser level implies one at every stricter level |
| `Permission.DenialOnlyForKnownRoles` | model/user_model.py:50-61 | a denial message only goes to a registered sender ranked below the level |
| `Permission.AddMember` | model/user_model.py:140-192 | without an argument only the example is sent; otherwise the normalised argument is inserted with the type if absent, and no other user changes |
| `Permission.ExtractArgsOf` | model/telegram_client.py:256-263 | the argument parser gives back any non-empty text written after '/<command> ' that does not itself contain the marker |
| `Permission.AddMemberGrantsRole` | model/user_model.py:143-150 | after adding a new member, every spelling of that username resolves to the granted type |
| `Permission.AddMemberNeverPromotes` | model/database.py:155-159 | adding a known username changes nothing, so '/addadmin' cannot promote an existing user |
| `Permission.RootAdmins` | model/user_model.py:19-22 | entries are non-empty and lowercase, never more than the lines, and each one is some line with its newlines removed and lowered |
| `Permission.RootAdminsKeepsEveryLine` | model/user_model.py:19-22 | every line that is not blank once its newlines are removed gives an entry, lowered |
| `Permission.ImportRootUsers` | model/user_model.py:115-118 | each root admin not yet known becomes 'root_admin', known usernames keep their type, and nobody else changes |
| `Permission.RootEntryNeedsAt` | model/user_model.py:17-47 | a root admin entry without '@' never matches a lookup, because every looked-up username carries '@' |
| `Permission.SrcTypeCallback` | model/user_model.py:217-259 | a button press removes at most one username, and only one stored with the given type; nothing else changes, and nothing at all when the press is not handled |
| `Permission.MenuRouting` | model/user_model.py:220-234 | for every x without the marker, '/<type> x' opens the remove/cancel menu for x and changes nothing |
| `Permission.RemoveRouting` | model/user_model.py:236-249 | for every x holding neither marker, '/r<type> x' removes exactly x if stored with that type and relists the type |
| `Permission.ListRouting` | model/user_model.py:251-258 | '/list<type>' relists the type and changes nothing |
| `Permission.OtherRouting` | model/user_model.py:217-259 | data holding neither marker and other than '/list<type>' is not handled and changes nothing |
| `Permission.CallbackOpensMenu` | model/user_model.py:220-234 | '/user @bob' opens the remove/cancel menu for '@bob' |
| `Permission.CallbackRemoves` | model/user_model.py:236-249 | '/ruser @bob' removes '@bob' when stored as a 'user' and relists the users |
| `Permission.CallbackRelists` | model/user_model.py:251-258 | '/listuser' relists the users |
| `Permission.CallbackIgnoresOtherType` | model/user_model.py:217-259 | an admin-shaped callback is not handled on the user side |
| `Permission.CallbackQuerySpec` | model/user_model.py:203-215 | an admin can only remove 'user' entries; a root_admin gets the admin handling when it applies and the user handling otherwise; anyone else gets nothing |
| `Permission.CallbackQuery` | model/user_model.py:203-215 | `callback_query_handler`; stated by `Permission.CallbackQuerySpec` |
| `Permission.UserPhoto` | model/user_model.py:300-309 | a plain user's photo is always predicted, whatever their state; anyone else's is routed as usual |
| `Permission.UnregisteredIgnored` | test/user_model_unittest.py:17-32 | in a private bot an unregistered sender gets no answer and changes nothing, whatever they send |
| `Permission.RetrainOpenToAnyone` | model/telegram_client.py:141-146 | as written, an unregistered sender can make a private bot retrain and is answered, where the gated dispatch ignores them |
| `Permission.RetrainOnlyForRoot` | model/user_model.py:282-298 | with the gate the help text implies, only a root admin's '/retrain' changes anything |
| `Permission.PlainUserDenied` | test/user_model_unittest.py:34-47 | a plain user is refused every gated admin command with 'Permission denied.' and changes nothing, as written and in the corrected dispatch |
| `Permission.PlainUserCallbackIgnored` | model/user_model.py:50-61 | a plain user's button press changes nothing and gets no answer, since the denial needs a message to reply to |
| `Permission.AdminDenied` | test/user_model_unittest.py:56-70 | an admin is refused listing and adding admins with 'Permission denied.', as written and in the corrected dispatch |
| `Permission.PlainUserPhotoPredicts` | model/user_model.py:300-309 | a plain user's photo never stores a face and leaves them in 'Predict', as written and with '/retrain' gated alike |
| `Permission.DispatchKeepsConsistent` | model/user_model.py:300-334 | every update keeps each user in 'Train' or 'Note' holding a non-empty label, as written and with '/retrain' gated alike |
| `Permission.DispatchWith` | model/telegram_client.py:69-83 | the handler chain with the `/retrain` gate as a parameter; stated by the dispatch lemmas above |
| `Permission.DispatchAsWritten` | model/telegram_client.py:141-146 | the chain as written, with `/retrain` ungated; stated by `Permission.RetrainOpenToAnyone`, `Permission.PlainUserDenied` and `Permission.AdminDenied` |
| `Permission.Dispatch` | model/user_model.py:282-298 | the chain with `/retrain` gated at root_admin; stated by `Permission.UnregisteredIgnored`, `Permission.RetrainOnlyForRoot` and `Permission.DispatchKeepsConsistent` |

## Left out

- Telegram transport. This covers the updater, handler registration, typing and upload indicators, `run_async`, and the `error_handler`. Replies are constructors of `Reply`, not message texts.
- The inline-keyboard markup is not modelled; a member list is a set of usernames. The listing order of `list_user` is therefore not modelled.
- The model lock and the deep copy in `get_model` are left out. They only matter under concurrency, and the model runs every operation to completion.
- Face detection, face encoding, image decoding and the scikit-learn classifiers are parameters, not computations. These are foreign libraries.
- Pickling, BSON packing, image labelling and overlays are left out. PackModelError, CreateCaptionError and the labelled image are never produced.
- `Recognition.Train`: the classifier's own TypeError, ValueError and AttributeError, which would raise TrainError, are not modelled. For the same reason the except clause of `predict` is modelled only for its two modelled causes: predicting before fit and an empty probability row.
- `Controller.ExtractEncodingFromImage`: a face location list without encodings, and the TypeError or ValueError of the face library, are not modelled. They are foreign-library behaviour.
- The MongoDB driver and its failures (DatabaseError) are left out, as are ObjectId identities. A face's identity is its position.
- The DatabaseError replies exist in `TrainFailure` and `PredictFailure`, but nothing raises them.
- Percentages are rendered by a parameter. `round(prob * 100, 2)` is floating point.
- `sys.getsizeof` is not modelled. The file size is a natural number compared with 16 MiB.
- `Text.Lower`: only ASCII letters are lowered. Python lowers all of Unicode.
- The dates of `get_datetime` and `utcnow` are clock parameters. Time zones are not modelled.
- Reading the token file and the root-admin file is left out. `Permission.RootAdmins` takes the file's lines as input.
- The `/start` handler of the base client is not modelled. The permission client overrides it, and the override sends the role's help text without touching the sessions.
- `train_handler` has a branch for a label that `is None`. It is not modelled, because the defaultdict never yields None.
- `Store.LatestIndex`: MongoDB does not fix which of several models with the same creation time `find_one` returns. The model picks the earliest inserted.
- `Telegram.TrainHandler` runs the corrected `Controller.TrainImage`. As written, the recorded face count is one higher whenever the training set has a single label. `Controller.TrainImageVariantsAgree` shows the result, cache, faces, notes, users and counters agree on every clock, so the bot's replies and sessions are the same either way. That the stored models differ only in this count is proved for a clock later than every stored model.
- A refused button press gets no 'Permission denied.'. `handle_permission` replies through `update.message`, which a callback query does not carry, so the reply itself raises.
- A channel post never reaches `/retrain`. The model assumes python-telegram-bot's `CommandHandler` behaviour from version 12 on: it accepts only message and edited-message updates. The library is not part of this model.

## Findings

| source | as written | input that shows it | evidently intended | confidence | as-written member | corrected member |
|---|---|---|---|---|---|---|
| controller/client.py:169 | `face_count` is `len(x_train)` after `fit` has appended the NULL_LABEL padding to that same list (model/recognition_model.py:89-90) | the first photo on an empty store: one face is stored, face_count 2 is recorded | the number of faces trained on, as `retrain` records (`len(faces)`) | high, not executed | `Controller.TrainImageAsWritten`, shown by `Controller.FirstPhotoRecordsTwo` and `Controller.TrainImageAsWrittenOvercounts` | `Controller.TrainImage`, proved by `Controller.TrainImageSpec` |
| utils.py:19-21 | the last three characters are compared with the allowed extensions | 'face.jpeg': its last three characters 'peg' are not listed, although 'jpeg' is | a name ending in any listed extension passes | high, not executed | `Utils.LegalFile`, shown by `Utils.LegalFileRejectsJpeg` and `Utils.LegalFileSpec` | `Utils.LegalFileByExtension`, proved by `Utils.LegalFileByExtensionWidens` |
| model/telegram_client.py:141-146 | `/retrain` is registered without a permission wrapper, and the permission client does not override it | an unregistered user of a private bot sends '/retrain' to a store without faces: the bot retrains and replies 'Model extracted and retrained' | gated at root_admin, as the help text offers it only to root admins (model/user_model.py:297) | medium, not executed | `Permission.DispatchAsWritten`, shown by `Permission.RetrainOpenToAnyone` | `Permission.Dispatch`, proved by `Permission.RetrainOnlyForRoot` and `Permission.UnregisteredIgnored` |

Two further behaviours are modelled as written and not claimed as defects:

- The mention handler sends 'Note updated' even after 'Label does not exist' (`Telegram.MentionHandler`).
- A root admin line without '@' is stored as written, but every lookup key contains '@', so that entry never grants a role (`Permission.RootEntryNeedsAt`).
