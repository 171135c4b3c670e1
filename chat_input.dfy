/** The message box (components/ChatInput.tsx): its text, the speech-recognition listening
    flag, the fold of recognition results into a transcript, and the submit guard. */
module ChatInput {
  import opened Types
  import opened Text

  /** One recognition result: whether it is final, and the transcript of its first alternative. */
  datatype SpeechResult = SpeechResult(isFinal: bool, transcript: string)

  /** The transcripts of the final results with index in [from, |results|), in order. */
  function FinalTranscript(results: seq<SpeechResult>, from: nat): string
    decreases |results| - from
  {
    if from >= |results| then []
    else (if results[from].isFinal then results[from].transcript else []) + FinalTranscript(results, from + 1)
  }

  /** The loop of `onresult`: accumulate the final transcripts from `resultIndex` on. */
  method CollectFinal(results: seq<SpeechResult>, resultIndex: nat) returns (finalTranscript: string)
    ensures finalTranscript == FinalTranscript(results, resultIndex)
  {
    finalTranscript := [];
    var i := resultIndex;
    while i < |results|
      invariant resultIndex <= i
      invariant finalTranscript + FinalTranscript(results, i) == FinalTranscript(results, resultIndex)
    {
      FoldStep(results, i, finalTranscript);
      if results[i].isFinal {
        finalTranscript := finalTranscript + results[i].transcript;
      }
      i := i + 1;
    }
    assert finalTranscript + FinalTranscript(results, i) == finalTranscript + [];
  }

  /** One turn of the `onresult` loop moves result i's contribution into the accumulator. */
  lemma FoldStep(results: seq<SpeechResult>, i: nat, acc: string)
    requires i < |results|
    ensures acc + FinalTranscript(results, i)
         == (if results[i].isFinal then acc + results[i].transcript else acc) + FinalTranscript(results, i + 1)
  {
    var step := if results[i].isFinal then results[i].transcript else [];
    assert acc + (step + FinalTranscript(results, i + 1)) == (acc + step) + FinalTranscript(results, i + 1);
    assert acc + [] == acc;
  }

  /** One more result at the end adds its transcript when final and nothing otherwise. */
  lemma {:induction false} FinalTranscriptSnoc(results: seq<SpeechResult>, from: nat, r: SpeechResult)
    requires from <= |results|
    ensures FinalTranscript(results + [r], from)
         == FinalTranscript(results, from) + (if r.isFinal then r.transcript else [])
    decreases |results| - from
  {
    var rs := results + [r];
    var y := if r.isFinal then r.transcript else [];
    if from == |results| {
      assert rs[from] == r;
      assert FinalTranscript(rs, from + 1) == [];
      assert FinalTranscript(rs, from) == y + [];
      assert FinalTranscript(results, from) == [];
      assert [] + y == y + [];
    } else {
      FinalTranscriptSnoc(results, from + 1, r);
      assert rs[from] == results[from];
      var x := if results[from].isFinal then results[from].transcript else [];
      var rest := FinalTranscript(results, from + 1);
      assert FinalTranscript(rs, from) == x + (rest + y);
      assert FinalTranscript(results, from) == x + rest;
      assert x + (rest + y) == (x + rest) + y;
    }
  }

  /** A result that is not final contributes nothing, whatever its transcript says. */
  lemma {:induction false} NonFinalIgnored(results: seq<SpeechResult>, from: nat, i: nat, t: string)
    requires i < |results| && !results[i].isFinal
    ensures FinalTranscript(results[i := SpeechResult(false, t)], from) == FinalTranscript(results, from)
    decreases |results| - from
  {
    var rs := results[i := SpeechResult(false, t)];
    if from < |results| {
      NonFinalIgnored(results, from + 1, i, t);
      assert (if rs[from].isFinal then rs[from].transcript else [])
          == (if results[from].isFinal then results[from].transcript else []);
    }
  }

  /** The results before `resultIndex` contribute nothing. */
  lemma {:induction false} EarlierResultsIgnored(before: seq<SpeechResult>, results: seq<SpeechResult>, from: nat)
    ensures FinalTranscript(before + results, |before| + from) == FinalTranscript(results, from)
    decreases |results| - from
  {
    if from < |results| {
      EarlierResultsIgnored(before, results, from + 1);
      assert (before + results)[|before| + from] == results[from];
    }
  }

  /** `if (finalTranscript.trim()) onTranscript(finalTranscript.trim())`. */
  function TranscriptToDeliver(finalTranscript: string): (r: Option<string>)
    ensures r.Some? <==> !AllSpace(finalTranscript)
    ensures r.Some? ==> r.value != [] && IsTrimmed(r.value) && r.value == Trim(finalTranscript)
  {
    var t := Trim(finalTranscript);
    if t != [] then Some(t) else None
  }

  /** The update the transcript callback makes to the text: joined with one space, unless the
      previous text is blank, in which case it is replaced. */
  function MergeTranscript(prev: string, transcript: string): (r: string)
    ensures AllSpace(prev) ==> r == transcript
    ensures !AllSpace(prev) ==> |r| == |prev| + 1 + |transcript|
    ensures !AllSpace(prev) ==> r[..|prev|] == prev && r[|prev|] == ' ' && r[|prev| + 1..] == transcript
  {
    if Trim(prev) != [] then prev + " " + transcript else transcript
  }

  /** What `toggleListening` asks of the recognizer. */
  datatype RecognizerCall = Start | Stop

  class ChatInputBox {
    /** The textarea's contents. */
    var text: string
    /** Whether the recognizer reported that it is listening. */
    var isListening: bool
    /** Whether the browser offers speech recognition (`recognitionRef.current` is set). */
    const speechSupported: bool

    /** `useState(initialPrompt || '')` and `useState(false)`. */
    constructor(initialPrompt: Option<string>, speechSupported: bool)
      ensures text == (if initialPrompt.Some? then initialPrompt.value else [])
      ensures !isListening && this.speechSupported == speechSupported
    {
      text := if initialPrompt.Some? then initialPrompt.value else [];
      isListening := false;
      this.speechSupported := speechSupported;
    }

    /** The effect run when `initialPrompt` changes: a non-empty prompt replaces the text. */
    method InitialPromptChanged(initialPrompt: Option<string>)
      modifies this
      ensures initialPrompt.Some? && initialPrompt.value != [] ==> text == initialPrompt.value
      ensures !(initialPrompt.Some? && initialPrompt.value != []) ==> text == old(text)
      ensures isListening == old(isListening)
    {
      if initialPrompt.Some? && initialPrompt.value != [] {
        text := initialPrompt.value;
      }
    }

    /** The textarea's `onChange`: the typed value becomes the text. */
    method Edited(value: string)
      modifies this
      ensures text == value && isListening == old(isListening)
    {
      text := value;
    }

    /** `handleSubmit`: send the trimmed text and clear the box, unless it is blank or a reply
        is still loading, in which case nothing is sent and the text stays. */
    method Submit(isLoading: bool) returns (sent: Option<string>)
      modifies this
      ensures sent.Some? <==> !AllSpace(old(text)) && !isLoading
      ensures sent.Some? ==> sent.value == Trim(old(text)) && sent.value != [] && text == []
      ensures sent.None? ==> text == old(text)
      ensures isListening == old(isListening)
    {
      var t := Trim(text);
      if t != [] && !isLoading {
        sent := Some(t);
        text := [];
      } else {
        sent := None;
      }
    }

    /** `handleKeyDown`: Enter without Shift submits; every other key leaves all as it was. */
    method KeyDown(key: string, shiftKey: bool, isLoading: bool) returns (sent: Option<string>)
      modifies this
      ensures !(key == "Enter" && !shiftKey) ==> sent.None? && text == old(text)
      ensures key == "Enter" && !shiftKey ==> (sent.Some? <==> !AllSpace(old(text)) && !isLoading)
      ensures key == "Enter" && !shiftKey && sent.Some? ==> sent.value == Trim(old(text)) && text == []
      ensures sent.None? ==> text == old(text)
      ensures isListening == old(isListening)
    {
      if key == "Enter" && !shiftKey {
        sent := Submit(isLoading);
      } else {
        sent := None;
      }
    }

    /** `onresult`: fold the final results and merge a non-blank transcript into the text. */
    method ReceiveResults(results: seq<SpeechResult>, resultIndex: nat) returns (delivered: Option<string>)
      modifies this
      ensures delivered == TranscriptToDeliver(FinalTranscript(results, resultIndex))
      ensures delivered.Some? ==> text == MergeTranscript(old(text), delivered.value)
      ensures delivered.None? ==> text == old(text)
      ensures isListening == old(isListening)
    {
      var finalTranscript := CollectFinal(results, resultIndex);
      delivered := TranscriptToDeliver(finalTranscript);
      match delivered {
        case Some(t) => text := MergeTranscript(text, t);
        case None =>
      }
    }

    /** `toggleListening`: stop when listening, start otherwise; nothing without a recognizer.
        The flag itself changes only when the recognizer reports back. */
    method Toggle() returns (call: Option<RecognizerCall>)
      ensures !speechSupported ==> call.None?
      ensures speechSupported ==> call == Some(if isListening then Stop else Start)
    {
      if !speechSupported {
        call := None;
      } else if isListening {
        call := Some(Stop);
      } else {
        call := Some(Start);
      }
    }

    /** `onstart`. */
    method Started()
      modifies this
      ensures isListening && text == old(text)
    {
      isListening := true;
    }

    /** `onend`. */
    method Ended()
      modifies this
      ensures !isListening && text == old(text)
    {
      isListening := false;
    }

    /** `onerror`: the error is logged and listening stops. */
    method Failed(error: string)
      modifies this
      ensures !isListening && text == old(text)
    {
      isListening := false;
    }
  }
}
