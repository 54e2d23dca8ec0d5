/**
 * The reader's playback controller (App.tsx): the screen state, the loaded
 * words, the position, the speed and the error message, and the handlers
 * that change them. The extraction service is replaced by its result, and
 * the timer by the atomic step Tick that stands for the timer firing.
 */
module App {
  import opened Wrappers
  import opened Types
  import opened JsMath
  import TextProcessor
  import Controls

  /** What text extraction reports for a PDF: its text, or an error message. */
  datatype Extraction = Success(text: string) | Failure(message: string)

  /** What the file input hands to the upload handler. */
  datatype Selection = NoFile | NonPdf | Pdf(extraction: Extraction)

  /** One call to the extraction model: a response whose text may be
      missing, or a failed call. */
  datatype ServiceCall = Responded(text: Option<string>) | CallFailed

  const InitialWpm := 350
  const InvalidFileMessage := "Please upload a valid PDF file."
  const UnexpectedErrorMessage := "An unexpected error occurred."
  const ExtractionFailedMessage := "Failed to extract text from PDF. Please check your file or try again."

  /** How many words the reading context shows before and after the current one. */
  const ContextBeforeLength := 20
  const ContextAfterLength := 49

  /** The result the extraction service hands to the upload handler: a
      missing response text becomes the empty text, and a failed call the
      service's fixed message. */
  function ServiceResult(call: ServiceCall): (e: Extraction)
    ensures call.CallFailed? <==> e.Failure?
    ensures call.Responded? && call.text.None? ==> e == Success("")
    ensures call.Responded? && call.text.Some? ==> e == Success(call.text.value)
    ensures call.CallFailed? ==> e == Failure(ExtractionFailedMessage)
  {
    match call
    case CallFailed => Failure(ExtractionFailedMessage)
    case Responded(text) => Success(text.GetOr(""))
  }

  /** An empty extraction response is not an error: it tokenizes to the one
      empty word, which the upload handler then loads. */
  lemma EmptyResponseGivesOneEmptyWord()
    ensures ServiceResult(Responded(None)) == Success("")
    ensures TextProcessor.TokenizeText(ServiceResult(Responded(None)).text) == [WordData("", "", 0)]
  {
    TextProcessor.TokenizeBlank("");
  }

  /** `err.message || "An unexpected error occurred."`: the message shown for a
      failure is never empty. */
  function ErrorMessage(message: string): (shown: string)
    ensures shown != []
    ensures message != [] ==> shown == message
    ensures message == [] ==> shown == UnexpectedErrorMessage
  {
    if message == "" then UnexpectedErrorMessage else message
  }

  // ---------------------------------------------------------------------------
  // Seek arithmetic
  // ---------------------------------------------------------------------------

  /** `Math.max(0, Math.min(index, count - 1))`: the position a seek lands
      on. It is a valid word position when there are words and 0 when there
      are none; valid positions are kept, others move to the nearest end. */
  function ClampIndex(index: int, count: int): (r: int)
    ensures 0 <= r
    ensures 0 < count ==> r < count
    ensures count <= 0 ==> r == 0
    ensures 0 <= index < count ==> r == index
    ensures index < 0 ==> r == 0
    ensures 0 < count <= index ==> r == count - 1
  {
    Max(0, Min(index, count - 1))
  }

  /** Seeking twice to the same index is the same as seeking once. */
  lemma {:induction false} ClampIndexIdempotent(index: int, count: int)
    ensures ClampIndex(ClampIndex(index, count), count) == ClampIndex(index, count)
  {
  }

  /** On a 100-word document, seeking to -5 lands on 0 and seeking to 500 on 99. */
  lemma SeekExamples()
    ensures ClampIndex(-5, 100) == 0
    ensures ClampIndex(500, 100) == 99
  {
  }

  /** A click on the progress bar always lands on a word, and a click left
      of the bar's right edge lands exactly on the word it points at. */
  lemma {:induction false} ProgressClickLandsOnAWord(count: nat, pct: real)
    requires 0 < count && 0.0 <= pct <= 1.0
    ensures 0 <= ClampIndex(Controls.ProgressClickTarget(count, pct), count) < count
    ensures pct < 1.0 ==>
      ClampIndex(Controls.ProgressClickTarget(count, pct), count) == Controls.ProgressClickTarget(count, pct)
  {
  }

  // ---------------------------------------------------------------------------
  // The reading context
  // ---------------------------------------------------------------------------

  /** An index argument of `Array.prototype.slice`: negative values count
      from the end, and the result is clamped into [0, len]. */
  function SliceIndex(i: int, len: nat): (r: nat)
    ensures r <= len
    ensures 0 <= i <= len ==> r == i
  {
    if i < 0 then Max(0, len + i) else Min(i, len)
  }

  /** `Array.prototype.slice(start, end)`. */
  function Slice<T>(s: seq<T>, start: int, end: int): (r: seq<T>)
    ensures 0 <= start <= end <= |s| ==> r == s[start..end]
    ensures 0 <= start && |s| <= start ==> r == []
    ensures |r| <= |s|
  {
    var a := SliceIndex(start, |s|);
    var b := SliceIndex(end, |s|);
    if a < b then s[a..b] else []
  }

  /** The dimmed words shown before the current one: up to twenty, ending
      right before it. */
  function WordsBefore(words: seq<WordData>, currentIndex: int): (r: seq<WordData>)
    ensures 0 <= currentIndex <= |words| ==>
      r == words[Max(0, currentIndex - ContextBeforeLength)..currentIndex]
      && |r| == Min(currentIndex, ContextBeforeLength)
  {
    Slice(words, Max(0, currentIndex - ContextBeforeLength), currentIndex)
  }

  /** The words shown after the current one: up to forty-nine, starting
      right after it. */
  function WordsAfter(words: seq<WordData>, currentIndex: int): (r: seq<WordData>)
    ensures 0 <= currentIndex ==> |r| <= ContextAfterLength
    ensures 0 <= currentIndex < |words| ==>
      r == words[currentIndex + 1..Min(currentIndex + 1 + ContextAfterLength, |words|)]
  {
    Slice(words, currentIndex + 1, currentIndex + 1 + ContextAfterLength)
  }

  /** `words[currentIndex]?.original`: the highlighted word of the context. */
  function CurrentWord(words: seq<WordData>, currentIndex: int): (w: Option<string>)
    ensures w.Some? <==> 0 <= currentIndex < |words|
    ensures w.Some? ==> w.value == words[currentIndex].original
  {
    if 0 <= currentIndex < |words| then Some(words[currentIndex].original) else None
  }

  /** The reading context (the words before, the current word, the words
      after) is one contiguous run of the document, in document order. */
  lemma {:induction false} ContextIsContiguous(words: seq<WordData>, currentIndex: int)
    requires 0 <= currentIndex < |words|
    ensures WordsBefore(words, currentIndex) + [words[currentIndex]] + WordsAfter(words, currentIndex)
      == words[Max(0, currentIndex - ContextBeforeLength)..Min(currentIndex + 1 + ContextAfterLength, |words|)]
  {
    var lo := Max(0, currentIndex - ContextBeforeLength);
    var hi := Min(currentIndex + 1 + ContextAfterLength, |words|);
    assert words[lo..hi] == words[lo..currentIndex] + [words[currentIndex]] + words[currentIndex + 1..hi];
  }

  // ---------------------------------------------------------------------------
  // The controller
  // ---------------------------------------------------------------------------

  /** The reader component's state and its handlers. */
  class ReaderSession {
    var state: ReaderState
    var words: seq<WordData>
    var currentIndex: int
    var wpm: int
    var error: Option<string>

    /** The position is a valid word position once there are words (and 0
        before), the speed is a slider value, an error state always has a
        message, and the transient loading state is never left standing. */
    ghost predicate Valid()
      reads this
    {
      0 <= currentIndex
      && (words == [] ==> currentIndex == 0)
      && (words != [] ==> currentIndex < |words|)
      && Controls.IsSliderWpm(wpm)
      && (state == ERROR ==> error.Some?)
      && state != LOADING
    }

    constructor ()
      ensures Valid()
      ensures state == IDLE && words == [] && currentIndex == 0
      ensures wpm == InitialWpm && error == None
    {
      state := IDLE;
      words := [];
      currentIndex := 0;
      wpm := InitialWpm;
      error := None;
    }

    /** `handleFileUpload`, with the awaited extraction already finished: no
        file changes nothing; a file that is not a PDF only sets the error; a
        successful extraction loads its words from the start and makes the
        reader ready; a failed one shows its message and keeps the old words. */
    method HandleFileUpload(selection: Selection)
      requires Valid()
      modifies this
      ensures Valid()
      ensures wpm == old(wpm)
      ensures selection.NoFile? ==>
        state == old(state) && words == old(words) && currentIndex == old(currentIndex) && error == old(error)
      ensures selection.NonPdf? ==>
        error == Some(InvalidFileMessage)
        && state == old(state) && words == old(words) && currentIndex == old(currentIndex)
      ensures selection.Pdf? && selection.extraction.Success? ==>
        words == TextProcessor.TokenizeText(selection.extraction.text)
        && currentIndex == 0 && state == READY && error == None
      ensures selection.Pdf? && selection.extraction.Failure? ==>
        state == ERROR && error == Some(ErrorMessage(selection.extraction.message))
        && words == old(words) && currentIndex == old(currentIndex)
    {
      match selection {
        case NoFile =>
        case NonPdf =>
          error := Some(InvalidFileMessage);
        case Pdf(extraction) =>
          state := LOADING;
          error := None;
          match extraction {
            case Failure(message) =>
              error := Some(ErrorMessage(message));
              state := ERROR;
            case Success(text) =>
              var tokenized := TextProcessor.TokenizeText(text);
              if |tokenized| == 0 {
                // The source raises "No readable text found in this document."
                // here, but the tokenizer never returns an empty sequence.
                assert false;
              }
              words := tokenized;
              currentIndex := 0;
              state := READY;
          }
      }
    }

    /** The timer effect: a wait is scheduled exactly while playing with the
        position inside the document, and it lasts the paced delay of the
        current word at the base delay of one minute over the speed, which at
        slider speeds is between 50 and 1500 milliseconds. */
    function ScheduledDelay(): (delay: Option<real>)
      reads this
      requires Valid()
      ensures delay.Some? <==> state == PLAYING && currentIndex < |words|
      ensures delay.Some? ==>
        delay.value == TextProcessor.CalculateDelay(words[currentIndex].original, 60000.0 / wpm as real)
      ensures delay.Some? ==> 50.0 <= delay.value <= 1500.0
    {
      if state == PLAYING && currentIndex < |words| then
        var baseDelay := 60000.0 / wpm as real;
        assert 50.0 <= baseDelay <= 600.0;
        Some(TextProcessor.CalculateDelay(words[currentIndex].original, baseDelay))
      else
        None
    }

    /** The timer firing (`nextWord`): at the last word playback pauses and
        the position stays; otherwise the position moves on by one word. */
    method Tick()
      requires Valid()
      requires state == PLAYING && currentIndex < |words|
      modifies this
      ensures Valid()
      ensures words == old(words) && wpm == old(wpm) && error == old(error)
      ensures old(currentIndex) >= |words| - 1 ==> state == PAUSED && currentIndex == old(currentIndex)
      ensures old(currentIndex) < |words| - 1 ==> state == PLAYING && currentIndex == old(currentIndex) + 1
      ensures currentIndex <= |words| - 1
    {
      if currentIndex >= |words| - 1 {
        state := PAUSED;
      } else {
        currentIndex := currentIndex + 1;
      }
    }

    /** `togglePlay`: playing pauses, ready or paused plays, and the idle,
        loading and error states ignore the button. */
    method TogglePlay()
      requires Valid()
      modifies this
      ensures Valid()
      ensures old(state) == PLAYING ==> state == PAUSED
      ensures old(state) == READY || old(state) == PAUSED ==> state == PLAYING
      ensures old(state) == IDLE || old(state) == LOADING || old(state) == ERROR ==> state == old(state)
      ensures words == old(words) && currentIndex == old(currentIndex) && wpm == old(wpm) && error == old(error)
    {
      if state == PLAYING {
        state := PAUSED;
      } else if state == READY || state == PAUSED {
        state := PLAYING;
      }
    }

    /** `handleReset`: back to the first word, paused, from any state. */
    method HandleReset()
      requires Valid()
      modifies this
      ensures Valid()
      ensures currentIndex == 0 && state == PAUSED
      ensures words == old(words) && wpm == old(wpm) && error == old(error)
    {
      currentIndex := 0;
      state := PAUSED;
    }

    /** `handleSeek`: jump to the clamped index without touching the state. */
    method HandleSeek(index: int)
      requires Valid()
      modifies this
      ensures Valid()
      ensures currentIndex == ClampIndex(index, |words|)
      ensures 0 <= index < |words| ==> currentIndex == index
      ensures state == old(state) && words == old(words) && wpm == old(wpm) && error == old(error)
    {
      currentIndex := Max(0, Min(index, |words| - 1));
    }

    /** The rewind button: twenty words back, not before the first. */
    method Rewind()
      requires Valid()
      modifies this
      ensures Valid()
      ensures currentIndex == Controls.RewindTarget(old(currentIndex))
      ensures currentIndex <= old(currentIndex) && old(currentIndex) - currentIndex <= Controls.SeekStep
      ensures state == old(state) && words == old(words) && wpm == old(wpm) && error == old(error)
    {
      HandleSeek(Controls.RewindTarget(currentIndex));
    }

    /** The fast-forward button: twenty words on, not past the last. */
    method FastForward()
      requires Valid()
      modifies this
      ensures Valid()
      ensures words != [] ==> currentIndex == Controls.ForwardTarget(old(currentIndex), |words|)
      ensures old(currentIndex) <= currentIndex <= old(currentIndex) + Controls.SeekStep
      ensures state == old(state) && words == old(words) && wpm == old(wpm) && error == old(error)
    {
      HandleSeek(Controls.ForwardTarget(currentIndex, |words|));
    }

    /** A click on the progress bar at the fraction pct of its width. */
    method SeekToFraction(pct: real)
      requires Valid()
      modifies this
      ensures Valid()
      ensures currentIndex == ClampIndex(Controls.ProgressClickTarget(|words|, pct), |words|)
      ensures state == old(state) && words == old(words) && wpm == old(wpm) && error == old(error)
    {
      HandleSeek(Controls.ProgressClickTarget(|words|, pct));
    }

    /** `setWpm` from the speed slider, which only offers slider values. */
    method SetWpm(newWpm: int)
      requires Valid()
      requires Controls.IsSliderWpm(newWpm)
      modifies this
      ensures Valid()
      ensures wpm == newWpm
      ensures state == old(state) && words == old(words) && currentIndex == old(currentIndex) && error == old(error)
    {
      wpm := newWpm;
    }

    /** "Upload different file": back to the upload screen; the words and the
        position are kept. */
    method UploadDifferentFile()
      requires Valid()
      modifies this
      ensures Valid()
      ensures state == IDLE
      ensures words == old(words) && currentIndex == old(currentIndex) && wpm == old(wpm) && error == old(error)
    {
      state := IDLE;
    }

    /** The progress handed to the controls, for a loaded document: in
        [0, 100). */
    function ProgressPercent(): (percent: real)
      reads this
      requires Valid() && words != []
      ensures 0.0 <= percent < 100.0
    {
      Controls.Progress(currentIndex, |words|)
    }
  }
}
