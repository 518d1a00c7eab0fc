/** The recording page as the component runs it: an object whose handlers
    update its state variables in place. Every method is proved to change
    the state exactly as the matching function of `RecordingPage` says, so
    the properties proved there (the index stays in range, the countdown
    takes three ticks, ...) hold of the object too. */
module RecordingController {
  import opened Js
  import opened PhraseCsv
  import P = RecordingPage

  class Controller {
    const phrases: seq<Phrase>
    var currentPhraseIndex: int
    var isRecording: bool
    var hasRecorder: bool
    var audioChunks: seq<Blob>
    var timer: nat
    var totalSessionTime: nat
    var countdown: int
    var isCountdownModalOpen: bool
    var countdownTarget: int
    var countdownPhraseText: string
    var openStartModal: bool
    var openFinishModal: bool
    var isVideoPlaying: bool
    var isInitialPlayback: bool
    var videoSrc: string

    /** The object's state as a value of the page model. */
    function State(): P.Page
      reads this
    {
      P.Page(phrases, currentPhraseIndex, isRecording, hasRecorder, audioChunks, timer,
             totalSessionTime, countdown, isCountdownModalOpen, countdownTarget,
             countdownPhraseText, openStartModal, openFinishModal, isVideoPlaying,
             isInitialPlayback, videoSrc)
    }

    ghost predicate Valid()
      reads this
    {
      P.Invariant(State())
    }

    /** The page once its phrase list is loaded: first phrase, start modal open. */
    constructor (phrases: seq<Phrase>)
      ensures Valid() && State() == P.Initial(phrases)
    {
      this.phrases := phrases;
      currentPhraseIndex := 0;
      isRecording := false;
      hasRecorder := false;
      audioChunks := [];
      timer := 0;
      totalSessionTime := 0;
      countdown := P.CountdownStart;
      isCountdownModalOpen := false;
      countdownTarget := 0;
      countdownPhraseText := "";
      openStartModal := true;
      openFinishModal := false;
      isVideoPlaying := false;
      isInitialPlayback := false;
      videoSrc := "";
    }

    // --------------------------------------------------------- recording

    // StartRecording, StopRecording, TriggerPhraseAction, PlayVideo,
    // PhraseAction, FinishCountdown, StopIfRecording and MoveTo are inner
    // steps of the handlers below, which are the only entry points: they
    // assume no `Valid()` and promise none, and each handler calling them
    // proves that it ends in a valid state.

    /** `startRecording` once the microphone has answered. */
    method StartRecording(granted: bool)
      modifies this
      ensures State() == P.StartRecording(old(State()), granted)
    {
      if granted {
        hasRecorder := true;
        isRecording := true;
        timer := 0;
      }
    }

    /** `stopRecording`. */
    method StopRecording()
      modifies this
      ensures State() == P.StopRecording(old(State()))
    {
      if hasRecorder {
        isRecording := false;
      }
    }

    method DataAvailable(chunk: Blob)
      requires Valid()
      modifies this
      ensures Valid() && State() == P.DataAvailable(old(State()), chunk)
    {
      audioChunks := audioChunks + [chunk];
    }

    method RecordingTimerTick()
      requires Valid()
      modifies this
      ensures Valid() && State() == P.RecordingTimerTick(old(State()))
    {
      if isRecording {
        timer := timer + 1;
      }
    }

    method SessionTimerTick()
      requires Valid()
      modifies this
      ensures Valid() && State() == P.SessionTimerTick(old(State()))
    {
      totalSessionTime := totalSessionTime + 1;
    }

    // ----------------------------------------------- countdown and video

    /** `triggerPhraseAction(i)` up to the start of the countdown. */
    method TriggerPhraseAction(i: int)
      modifies this
      ensures State() == P.TriggerPhraseAction(old(State()), i)
    {
      countdownPhraseText := if 0 <= i < |phrases| then phrases[i].text else "";
      countdown := P.CountdownStart;
      isCountdownModalOpen := true;
      countdownTarget := i;
    }

    /** `playVideo(src)`. */
    method PlayVideo(src: string)
      modifies this
      ensures State() == P.PlayVideo(old(State()), src)
    {
      videoSrc := src;
      isVideoPlaying := true;
      isInitialPlayback := true;
    }

    /** The rest of `triggerPhraseAction(i)`, once the countdown is over. */
    method PhraseAction(i: int, granted: bool)
      modifies this
      ensures State() == P.PhraseAction(old(State()), i, granted)
    {
      if 0 <= i < |phrases| && phrases[i].videoSrc.Some? && phrases[i].videoSrc.value != "" {
        PlayVideo(phrases[i].videoSrc.value);
      } else {
        isVideoPlaying := false;
        StartRecording(granted);
      }
    }

    method CountdownTick(granted: bool)
      requires Valid()
      modifies this
      ensures Valid() && State() == P.CountdownTick(old(State()), granted)
    {
      if isCountdownModalOpen {
        if countdown == 1 {
          FinishCountdown(granted);
        } else {
          countdown := countdown - 1;
        }
      }
    }

    /** The tick that finds the countdown at 1: the modal closes and the
        phrase's action runs. */
    method FinishCountdown(granted: bool)
      requires isCountdownModalOpen && countdown == 1
      modifies this
      ensures State() == P.CountdownTick(old(State()), granted)
    {
      countdown := 0;
      isCountdownModalOpen := false;
      PhraseAction(countdownTarget, granted);
    }

    method HandleVideoEnd(granted: bool)
      requires Valid()
      modifies this
      ensures Valid() && State() == P.HandleVideoEnd(old(State()), granted)
    {
      isInitialPlayback := false;
      StartRecording(granted);
    }

    method VideoPlayFailed()
      requires Valid()
      modifies this
      ensures Valid() && State() == P.VideoPlayFailed(old(State()))
    {
      isInitialPlayback := false;
      isVideoPlaying := false;
    }

    // -------------------------------------------------------- navigation

    method HandleStartProcess()
      requires Valid()
      modifies this
      ensures Valid() && State() == P.HandleStartProcess(old(State()))
    {
      if openStartModal {
        openStartModal := false;
        TriggerPhraseAction(currentPhraseIndex);
      }
    }

    /** The opening step of the three navigation handlers. */
    method StopIfRecording()
      modifies this
      ensures State() == P.StopIfRecording(old(State()))
    {
      if isRecording {
        StopRecording();
      }
    }

    /** The step of "next" and "previous" that shows phrase j afresh. */
    method MoveTo(j: int)
      modifies this
      ensures State() == P.MoveTo(old(State()), j)
    {
      currentPhraseIndex := j;
      audioChunks := [];
      TriggerPhraseAction(j);
    }

    method HandleNextPhrase()
      requires Valid()
      modifies this
      ensures Valid() && State() == P.HandleNextPhrase(old(State()))
    {
      StopIfRecording();
      if currentPhraseIndex < |phrases| - 1 {
        var nextIndex := currentPhraseIndex + 1;
        MoveTo(nextIndex);
      } else {
        openFinishModal := true;
      }
    }

    method HandlePreviousPhrase()
      requires Valid()
      modifies this
      ensures Valid() && State() == P.HandlePreviousPhrase(old(State()))
    {
      StopIfRecording();
      if currentPhraseIndex > 0 {
        var prevIndex := currentPhraseIndex - 1;
        MoveTo(prevIndex);
      }
    }

    method HandleRestartRecording(granted: bool)
      requires Valid()
      modifies this
      ensures Valid() && State() == P.HandleRestartRecording(old(State()), granted)
    {
      StopIfRecording();
      audioChunks := [];
      StartRecording(granted);
    }

    // ------------------------------------------------------------ buttons

    method PressNext()
      requires Valid()
      modifies this
      ensures Valid() && State() == P.PressNext(old(State()))
    {
      if !(isInitialPlayback || isCountdownModalOpen) {
        HandleNextPhrase();
      }
    }

    method PressPrevious()
      requires Valid()
      modifies this
      ensures Valid() && State() == P.PressPrevious(old(State()))
    {
      if !(isInitialPlayback || isCountdownModalOpen || currentPhraseIndex == 0) {
        HandlePreviousPhrase();
      }
    }

    method PressRestart(granted: bool)
      requires Valid()
      modifies this
      ensures Valid() && State() == P.PressRestart(old(State()), granted)
    {
      if !(isInitialPlayback || isCountdownModalOpen || isVideoPlaying) {
        HandleRestartRecording(granted);
      }
    }
  }

  /** A session over two phrases without video, driven only through the
      object's methods: what the contracts alone let a caller conclude. */
  method TwoPhraseSession(first: Phrase, second: Phrase, take: Blob)
    requires first.videoSrc.None? && second.videoSrc.None?
  {
    var c := new Controller([first, second]);
    c.HandleStartProcess();
    assert c.isCountdownModalOpen && c.countdown == 3;
    c.PressNext();
    assert c.currentPhraseIndex == 0;
    c.CountdownTick(true);
    c.CountdownTick(true);
    assert c.isCountdownModalOpen && c.countdown == 1;
    c.CountdownTick(true);
    assert !c.isCountdownModalOpen && c.isRecording && c.timer == 0;
    c.DataAvailable(take);
    assert c.audioChunks == [take];
    c.PressNext();
    assert c.currentPhraseIndex == 1 && c.audioChunks == [] && !c.isRecording;
    c.CountdownTick(false);
    c.CountdownTick(false);
    c.CountdownTick(false);
    assert !c.isRecording && !c.isCountdownModalOpen;
    c.PressNext();
    assert c.currentPhraseIndex == 1 && c.openFinishModal;
  }
}
