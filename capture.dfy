/**
 * The meal capture dialog (src/components/meal-capture/MealCaptureDialog.jsx)
 * as a state machine over its four state fields. Image normalisation and
 * the parent's `onConfirm` are outcomes given to the handlers; the file
 * pickers are reported as the picker a handler opens.
 */
module Capture {
  import opened Basics
  import Image
  import MealContext

  const DefaultProcessingError := "We couldn't process this photo. Please try another or reduce its size."

  /** The message of a failed normalisation: `err?.message || default`. */
  function ProcessingError(message: string): (m: string)
    ensures m != ""
    ensures message != "" ==> m == message
    ensures message == "" ==> m == DefaultProcessingError
  {
    if message != "" then message else DefaultProcessingError
  }

  /** Which hidden file input a handler clicks. */
  datatype Picker = CameraPicker | UploadPicker

  class CaptureSession {
    var previewUrl: string
    var draftFile: Option<Image.File>
    var error: string
    var isProcessing: bool

    /** The state right after `resetState`. */
    predicate IsReset()
      reads this
    {
      previewUrl == "" && draftFile.None? && error == "" && !isProcessing
    }

    /** `canConfirm`: a draft and a preview exist and no file is being processed. */
    predicate CanConfirm()
      reads this
    {
      draftFile.Some? && previewUrl != "" && !isProcessing
    }

    constructor ()
      ensures IsReset()
    {
      previewUrl := "";
      draftFile := None;
      error := "";
      isProcessing := false;
    }

    method ResetState()
      modifies this
      ensures IsReset()
    {
      previewUrl := "";
      draftFile := None;
      error := "";
      isProcessing := false;
    }

    /** `handleClose`: reset, then the parent's `onClose` runs. */
    method HandleClose() returns (closed: bool)
      modifies this
      ensures IsReset() && closed
    {
      ResetState();
      closed := true;
    }

    /**
     * `handleFileSelected`: no file changes nothing; a normalised file becomes
     * the draft with its preview and clears the error; a failure sets the
     * message and drops the draft. Processing is over either way.
     */
    method HandleFileSelected(file: Option<Image.File>, normalized: Result<Image.Normalized, string>)
      modifies this
      ensures file.None? ==> unchanged(this)
      ensures file.Some? ==> !isProcessing
      ensures file.Some? && normalized.Ok? ==>
        draftFile == Some(normalized.value.file) && previewUrl == normalized.value.previewUrl && error == ""
      ensures file.Some? && normalized.Err? ==>
        draftFile.None? && previewUrl == "" && error == ProcessingError(normalized.error)
    {
      if file.None? {
        return;
      }
      isProcessing := true;
      match normalized {
        case Ok(result) =>
          draftFile := Some(result.file);
          previewUrl := result.previewUrl;
          error := "";
        case Err(message) =>
          error := ProcessingError(message);
          draftFile := None;
          previewUrl := "";
      }
      isProcessing := false;
    }

    /**
     * `handleConfirm`: without a draft and a preview nothing happens;
     * otherwise `onConfirm` gets exactly the draft and its preview, and only
     * when it resolves is the state reset and the dialog closed.
     */
    method HandleConfirm(onConfirmResolves: bool) returns (sent: Option<MealContext.Capture>, closed: bool)
      modifies this
      ensures old(draftFile).None? || old(previewUrl) == "" ==> sent.None? && !closed && unchanged(this)
      ensures old(draftFile).Some? && old(previewUrl) != "" ==>
        sent == Some(MealContext.Capture(old(draftFile), old(previewUrl)))
      ensures closed <==> sent.Some? && onConfirmResolves
      ensures closed ==> IsReset()
      ensures !closed ==> unchanged(this)
    {
      sent := None;
      closed := false;
      if draftFile.None? || previewUrl == "" {
        return;
      }
      sent := Some(MealContext.Capture(draftFile, previewUrl));
      if !onConfirmResolves {
        return;
      }
      closed := HandleClose();
    }

    /** `handleRetake`: reset, then open the camera picker when its input is mounted. */
    method HandleRetake(inputMounted: bool) returns (picker: Option<Picker>)
      modifies this
      ensures IsReset()
      ensures picker == (if inputMounted then Some(CameraPicker) else None)
    {
      ResetState();
      picker := if inputMounted then Some(CameraPicker) else None;
    }

    /** `handleChooseAnother`: reset, then open the upload picker when its input is mounted. */
    method HandleChooseAnother(inputMounted: bool) returns (picker: Option<Picker>)
      modifies this
      ensures IsReset()
      ensures picker == (if inputMounted then Some(UploadPicker) else None)
    {
      ResetState();
      picker := if inputMounted then Some(UploadPicker) else None;
    }

    /** `handleRemove`. */
    method HandleRemove()
      modifies this
      ensures IsReset()
    {
      ResetState();
    }

    /** The effect on `open`: closing the dialog resets it. */
    method OnOpenChanged(open: bool)
      modifies this
      ensures !open ==> IsReset()
      ensures open ==> unchanged(this)
    {
      if !open {
        ResetState();
      }
    }
  }

  /** A reset session cannot confirm. */
  lemma ResetCannotConfirm(s: CaptureSession)
    requires s.IsReset()
    ensures !s.CanConfirm()
  {
  }

  /**
   * After a successful selection the dialog can confirm exactly when the
   * preview is non-empty; after a failed one it cannot.
   */
  method SelectionThenConfirmable(file: Image.File, normalized: Result<Image.Normalized, string>)
    returns (confirmable: bool)
    ensures confirmable <==> normalized.Ok? && normalized.value.previewUrl != ""
  {
    var session := new CaptureSession();
    session.HandleFileSelected(Some(file), normalized);
    confirmable := session.CanConfirm();
  }
}
