/** Failure-carrying wrappers shared by every module, and the exceptions the
    bot's core raises, gathered into one datatype. */
module Base {

  datatype Option<+T> = None | Some(value: T)

  /** The exception classes of model/database.py, model/recognition_model.py
      and controller/client.py. */
  datatype Error =
    // model/database.py
    | DatabaseError
    // model/recognition_model.py: FaceRecognitionError and its subclasses
    | FaceRecognitionError
    | NoFaceError
    | TooManyFacesError
    | RecognitionExtractFaceError
    | PredictWithoutFitError
    | TrainSizeMismatch
    | TrainError
    | PredictionError
    // controller/client.py: ClientError and its subclasses
    | ClientError
    | ImageFileError
    | PackModelError
    | UnpackModelError
    | NoModelError
    | NoBinDataError
    | CreateCaptionError
    | ExtractFaceError
    | LabelNoteFoundError
  {
    /** `except FaceRecognitionError` catches these. */
    predicate IsFaceRecognitionError() {
      || FaceRecognitionError? || NoFaceError? || TooManyFacesError?
      || RecognitionExtractFaceError? || PredictWithoutFitError?
      || TrainSizeMismatch? || TrainError? || PredictionError?
    }

    /** `except ClientError` catches these. */
    predicate IsClientError() {
      || ClientError? || ImageFileError? || PackModelError? || UnpackModelError?
      || NoModelError? || NoBinDataError? || CreateCaptionError?
      || ExtractFaceError? || LabelNoteFoundError?
    }
  }

  datatype Result<+T> = Ok(value: T) | Err(error: Error)
}
