/** The crop-diagnosis screen (components/DiseaseDiagnosis.tsx): the selected image, the
    diagnosis or its error, and the loading flag. The remedy is displayed with the same
    splitter as chat messages. */
module Diagnosis {
  import opened Types
  import opened Text
  import ChatMessage
  import Gateway

  /** The notice shown when the diagnosis throws something that is not an `Error`. */
  const DiagnosisFailed: string := "Failed to analyze image. Please try again."

  /** A picked image file; its bytes are read by the service and not modelled. */
  datatype ImageFile = ImageFile(name: string, mimeType: string)

  /** The remedy as displayed: the copy of `ChatMessageContent` in this file splits and rewrites
      it exactly as the chat screen does. */
  function RemedyView(result: DiagnosisResult): (segs: seq<ChatMessage.Segment>)
    ensures |segs| == |ChatMessage.Split(result.remedy)|
  {
    ChatMessage.RenderContent(result.remedy)
  }

  /** The remedy's pieces reassemble it, plain pieces between code blocks are shown verbatim,
      and a remedy without fences is shown as one piece of text. */
  lemma RemedyViewFaithful(result: DiagnosisResult)
    ensures Concat(ChatMessage.Split(result.remedy)) == result.remedy
    ensures forall k :: 0 <= k < |RemedyView(result)| - 1 && k % 2 == 0 ==>
      RemedyView(result)[k] == ChatMessage.Plain(ChatMessage.Split(result.remedy)[k])
    ensures ChatMessage.NoFenceIn(result.remedy, 0, |result.remedy|) ==>
      RemedyView(result) == [ChatMessage.Plain(result.remedy)]
  {
    ChatMessage.SplitIsFenceSplit(result.remedy);
    ChatMessage.RenderContentShape(result.remedy);
    if ChatMessage.NoFenceIn(result.remedy, 0, |result.remedy|) {
      ChatMessage.RenderWithoutFence(result.remedy);
    }
  }

  class DiagnosisScreen {
    var imageFile: Option<ImageFile>
    var result: Option<DiagnosisResult>
    var isLoading: bool
    var error: Option<string>

    constructor()
      ensures imageFile == None && result == None && !isLoading && error == None
    {
      imageFile := None;
      result := None;
      isLoading := false;
      error := None;
    }

    /** `handleFileChange`: the first picked file is kept and the previous outcome cleared;
        an empty selection changes nothing. */
    method FileChange(files: seq<ImageFile>)
      modifies this
      ensures files == [] ==> unchanged(this)
      ensures files != [] ==> imageFile == Some(files[0]) && result == None && error == None
      ensures isLoading == old(isLoading)
    {
      if |files| > 0 {
        imageFile := Some(files[0]);
        result := None;
        error := None;
      }
    }

    /** The synchronous start of `handleDiagnose`: nothing without an image; otherwise loading
        starts and the previous error and result are cleared. */
    method BeginDiagnose() returns (started: bool)
      modifies this
      ensures started == old(imageFile).Some?
      ensures !started ==> unchanged(this)
      ensures started ==> isLoading && error == None && result == None && imageFile == old(imageFile)
    {
      if imageFile.None? {
        return false;
      }
      isLoading := true;
      error := None;
      result := None;
      started := true;
    }

    /** The `try`/`catch`/`finally` of `handleDiagnose` once the reply is parsed or has thrown. */
    method SettleDiagnose(outcome: Result<DiagnosisResult, Thrown>)
      modifies this
      ensures !isLoading && imageFile == old(imageFile)
      ensures outcome.Ok? ==> result == Some(outcome.value) && error == old(error)
      ensures outcome.Err? ==> result == old(result) && error == Some(ErrorText(outcome.error, DiagnosisFailed))
    {
      match outcome {
        case Ok(r) =>
          result := Some(r);
        case Err(e) =>
          error := Some(ErrorText(e, DiagnosisFailed));
      }
      isLoading := false;
    }

    /** `handleDiagnose` from start to settlement against the parsed reply `outcome`. */
    method Diagnose(outcome: Result<DiagnosisResult, Thrown>)
      modifies this
      ensures old(imageFile).None? ==> unchanged(this)
      ensures old(imageFile).Some? ==> !isLoading && imageFile == old(imageFile)
      ensures old(imageFile).Some? && outcome.Ok? ==> result == Some(outcome.value) && error == None
      ensures old(imageFile).Some? && outcome.Err? ==>
        result == None && error == Some(ErrorText(outcome.error, DiagnosisFailed))
    {
      var started := BeginDiagnose();
      if started {
        SettleDiagnose(outcome);
      }
    }
  }

  /** Diagnosing without an API key: `diagnoseCropDisease` throws the configuration error, so
      a picked image yields no result and that error, whatever the service would reply. */
  method DiagnoseWithoutKey(file: ImageFile, reply: Result<DiagnosisResult, Thrown>)
    returns (result: Option<DiagnosisResult>, error: Option<string>)
    ensures result == None && error == Some(Gateway.KeyNotConfigured)
  {
    var screen := new DiagnosisScreen();
    screen.FileChange([file]);
    screen.Diagnose(Gateway.DiagnoseCropDisease("", reply));
    result, error := screen.result, screen.error;
  }

  /** Diagnosing without an image does nothing; with one, a parsed reply is shown and a
      failure that is not an `Error` shows the fixed notice. */
  method DiagnoseExample()
  {
    var screen := new DiagnosisScreen();
    var blight := DiagnosisResult("Leaf Blight", "Brown lesions", "- Remove affected leaves");
    screen.Diagnose(Ok(blight));
    assert screen.result == None && !screen.isLoading;
    screen.FileChange([ImageFile("leaf.jpg", "image/jpeg")]);
    screen.Diagnose(Ok(blight));
    assert screen.result == Some(blight) && screen.error == None;
    screen.Diagnose(Err(NonError));
    assert screen.result == None && screen.error == Some(DiagnosisFailed);
  }
}
