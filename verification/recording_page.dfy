/** The state of the recording page and what each of its handlers and
    browser events does to it, as functions from the old state to the new
    one. The microphone, the video element and the interval timers are
    abstract: their outcomes arrive as events, and whether the microphone
    was granted is a parameter of every step that starts a recording. */
module RecordingPage {
  import opened Wrappers
  import opened Js
  import opened PhraseCsv

  /** The value the countdown starts from before every phrase. */
  const CountdownStart: int := 3

  /** The page's state variables, named after the component's state hooks
      and refs. */
  datatype Page = Page(
    phrases: seq<Phrase>,
    index: int,             // currentPhraseIndex
    isRecording: bool,
    hasRecorder: bool,      // a MediaRecorder has been created (the ref is never reset)
    chunks: seq<Blob>,      // audioChunks
    timer: nat,             // seconds of the current recording
    totalTime: nat,         // totalSessionTime
    countdown: int,
    countdownOpen: bool,    // isCountdownModalOpen
    countdownTarget: int,   // the index the running countdown was started for
    countdownText: string,  // countdownPhraseText
    startOpen: bool,        // openStartModal
    finishOpen: bool,       // openFinishModal
    videoPlaying: bool,     // isVideoPlaying
    initialPlayback: bool,  // isInitialPlayback
    videoSrc: string        // the video element's src
  )

  /** The page once the phrase list has been loaded (an empty list when the
      fetch failed). */
  function Initial(phrases: seq<Phrase>): (s: Page)
    ensures Invariant(s) && s.index == 0 && s.startOpen && !s.isRecording && s.chunks == []
  {
    Page(phrases, 0, false, false, [], 0, 0, CountdownStart, false, 0, "", true, false,
         false, false, "")
  }

  /** What holds in every state the page can reach: the index is a valid
      position whenever there are phrases (and 0 when there are none), a
      recording always has a recorder behind it, and a running countdown
      shows 1, 2 or 3 and belongs to the phrase on screen. */
  predicate Invariant(s: Page) {
    && 0 <= s.index
    && (|s.phrases| > 0 ==> s.index < |s.phrases|)
    && (|s.phrases| == 0 ==> s.index == 0)
    && (s.isRecording ==> s.hasRecorder)
    && (s.countdownOpen ==> 1 <= s.countdown <= CountdownStart && s.countdownTarget == s.index)
  }

  // ----------------------------------------------------------- recording

  /** `startRecording`, once `getUserMedia` has answered: when access is
      granted a recording starts with its timer at 0; when it is refused the
      promise rejects and nothing changes. Chunks are not touched. */
  function StartRecording(s: Page, granted: bool): (r: Page)
    ensures granted ==> r.isRecording && r.hasRecorder && r.timer == 0
    ensures !granted ==> r == s
    ensures r == s.(isRecording := r.isRecording, timer := r.timer, hasRecorder := r.hasRecorder)
    ensures Invariant(s) ==> Invariant(r)
  {
    if granted then s.(isRecording := true, timer := 0, hasRecorder := true) else s
  }

  /** `stopRecording`: stops the recorder if one was ever created. */
  function StopRecording(s: Page): (r: Page)
    ensures s.hasRecorder ==> !r.isRecording
    ensures !s.hasRecorder ==> r == s
    ensures r == s.(isRecording := r.isRecording)
    ensures Invariant(s) ==> Invariant(r)
  {
    if s.hasRecorder then s.(isRecording := false) else s
  }

  /** `ondataavailable`: the recorder's chunks are appended in arrival order. */
  function DataAvailable(s: Page, chunk: Blob): (r: Page)
    ensures |r.chunks| == |s.chunks| + 1 && r.chunks[..|s.chunks|] == s.chunks
    ensures r.chunks[|s.chunks|] == chunk
    ensures r == s.(chunks := r.chunks)
    ensures Invariant(s) ==> Invariant(r)
  {
    s.(chunks := s.chunks + [chunk])
  }

  /** The one-second interval that runs while recording. */
  function RecordingTimerTick(s: Page): (r: Page)
    ensures r.timer == if s.isRecording then s.timer + 1 else s.timer
    ensures r == s.(timer := r.timer)
    ensures Invariant(s) ==> Invariant(r)
  {
    if s.isRecording then s.(timer := s.timer + 1) else s
  }

  /** The one-second interval that counts the whole session. */
  function SessionTimerTick(s: Page): (r: Page)
    ensures r.totalTime == s.totalTime + 1
    ensures r == s.(totalTime := r.totalTime)
    ensures Invariant(s) ==> Invariant(r)
  {
    s.(totalTime := s.totalTime + 1)
  }

  // ------------------------------------------------ countdown and video

  /** `triggerPhraseAction(i)` up to its await: the countdown modal opens
      at 3 showing phrase i's text (empty when there is no such phrase). */
  function TriggerPhraseAction(s: Page, i: int): (r: Page)
    ensures r.countdownOpen && r.countdown == CountdownStart && r.countdownTarget == i
    ensures r.countdownText == if 0 <= i < |s.phrases| then s.phrases[i].text else ""
    ensures r == s.(countdownText := r.countdownText, countdown := r.countdown,
                    countdownOpen := r.countdownOpen, countdownTarget := r.countdownTarget)
  {
    s.(countdownText := if 0 <= i < |s.phrases| then s.phrases[i].text else "",
       countdown := CountdownStart, countdownOpen := true, countdownTarget := i)
  }

  /** The phrase's video, when it has a non-empty one. */
  function VideoOf(s: Page, i: int): Option<string> {
    if 0 <= i < |s.phrases| && s.phrases[i].videoSrc.Some? && s.phrases[i].videoSrc.value != ""
    then s.phrases[i].videoSrc
    else None
  }

  /** `playVideo(src)`: the video element gets the source and both video
      flags are raised; whether `play()` succeeds arrives later as an event. */
  function PlayVideo(s: Page, src: string): (r: Page)
    ensures r.videoPlaying && r.initialPlayback && r.videoSrc == src
    ensures r == s.(videoSrc := r.videoSrc, videoPlaying := r.videoPlaying,
                    initialPlayback := r.initialPlayback)
  {
    s.(videoSrc := src, videoPlaying := true, initialPlayback := true)
  }

  /** The rest of `triggerPhraseAction(i)`, after the countdown: a phrase with
      a video goes to playback, any other phrase starts recording. */
  function PhraseAction(s: Page, i: int, granted: bool): (r: Page)
    ensures VideoOf(s, i).Some? ==> r == PlayVideo(s, VideoOf(s, i).value)
    ensures VideoOf(s, i).None? ==> !r.videoPlaying && (granted ==> r.isRecording && r.timer == 0)
    ensures VideoOf(s, i).None? && !granted ==> r.isRecording == s.isRecording
    ensures VideoOf(s, i).None? ==> r.videoSrc == s.videoSrc && r.initialPlayback == s.initialPlayback
    ensures VideoOf(s, i).None? && granted ==> r.hasRecorder
    ensures VideoOf(s, i).None? && !granted ==> r == s.(videoPlaying := false)
    ensures r == s.(videoSrc := r.videoSrc, videoPlaying := r.videoPlaying,
                    initialPlayback := r.initialPlayback, isRecording := r.isRecording,
                    timer := r.timer, hasRecorder := r.hasRecorder)
    ensures Invariant(s) ==> Invariant(r)
  {
    if VideoOf(s, i).Some? then PlayVideo(s, VideoOf(s, i).value)
    else StartRecording(s.(videoPlaying := false), granted)
  }

  /** One tick of the countdown interval: the value goes down by one, and
      the tick that finds it at 1 leaves it at 0, closes the modal and runs
      the phrase's action. No interval runs while the modal is closed. */
  function CountdownTick(s: Page, granted: bool): (r: Page)
    ensures !s.countdownOpen ==> r == s
    ensures s.countdownOpen && s.countdown != 1 ==>
      r.countdownOpen && r.countdown == s.countdown - 1 && r.isRecording == s.isRecording
      && r.videoPlaying == s.videoPlaying
    ensures s.countdownOpen && s.countdown == 1 ==>
      && !r.countdownOpen && r.countdown == 0
      && (VideoOf(s, s.countdownTarget).Some? ==>
            r.videoPlaying && r.initialPlayback && r.videoSrc == VideoOf(s, s.countdownTarget).value)
      && (VideoOf(s, s.countdownTarget).None? ==> !r.videoPlaying && (granted ==> r.isRecording))
    ensures s.countdownOpen && s.countdown != 1 ==> r == s.(countdown := s.countdown - 1)
    ensures s.countdownOpen && s.countdown == 1 ==>
      r == PhraseAction(s.(countdown := 0, countdownOpen := false), s.countdownTarget, granted)
    ensures r == s.(countdown := r.countdown, countdownOpen := r.countdownOpen,
                    videoSrc := r.videoSrc, videoPlaying := r.videoPlaying,
                    initialPlayback := r.initialPlayback, isRecording := r.isRecording,
                    timer := r.timer, hasRecorder := r.hasRecorder)
    ensures Invariant(s) ==> Invariant(r)
  {
    if !s.countdownOpen then s
    else if s.countdown == 1 then
      PhraseAction(s.(countdown := 0, countdownOpen := false), s.countdownTarget, granted)
    else s.(countdown := s.countdown - 1)
  }

  /** `handleVideoEnd`: the initial playback is over and recording starts. */
  function HandleVideoEnd(s: Page, granted: bool): (r: Page)
    ensures !r.initialPlayback && r.videoPlaying == s.videoPlaying
    ensures granted ==> r.isRecording && r.timer == 0 && r.hasRecorder
    ensures !granted ==> r == s.(initialPlayback := false)
    ensures r == s.(initialPlayback := r.initialPlayback, isRecording := r.isRecording,
                    timer := r.timer, hasRecorder := r.hasRecorder)
    ensures Invariant(s) ==> Invariant(r)
  {
    StartRecording(s.(initialPlayback := false), granted)
  }

  /** The `catch` of `play()`: both video flags drop and no recording starts. */
  function VideoPlayFailed(s: Page): (r: Page)
    ensures !r.initialPlayback && !r.videoPlaying
    ensures r == s.(initialPlayback := r.initialPlayback, videoPlaying := r.videoPlaying)
    ensures Invariant(s) ==> Invariant(r)
  {
    s.(initialPlayback := false, videoPlaying := false)
  }

  // ------------------------------------------------------------ navigation

  /** `handleStartProcess`, the button of the start modal. */
  function HandleStartProcess(s: Page): (r: Page)
    ensures !r.startOpen
    ensures s.startOpen ==>
      r.countdownOpen && r.countdown == CountdownStart && r.countdownTarget == s.index
    ensures s.startOpen ==>
      r.countdownText == if 0 <= s.index < |s.phrases| then s.phrases[s.index].text else ""
    ensures !s.startOpen ==> r == s
    ensures r == s.(startOpen := r.startOpen, countdownText := r.countdownText,
                    countdown := r.countdown, countdownOpen := r.countdownOpen,
                    countdownTarget := r.countdownTarget)
    ensures Invariant(s) ==> Invariant(r)
  {
    if s.startOpen then TriggerPhraseAction(s.(startOpen := false), s.index) else s
  }

  /** The `if (isRecording) stopRecording()` that opens the three
      navigation handlers: only the recording flag can change, and it drops
      when there is a recorder. */
  function StopIfRecording(s: Page): (r: Page)
    ensures !s.isRecording ==> r == s
    ensures s.hasRecorder ==> !r.isRecording
    ensures r == s.(isRecording := s.isRecording && !s.hasRecorder)
    ensures Invariant(s) ==> Invariant(r)
  {
    if s.isRecording then StopRecording(s) else s
  }

  /** Moving to phrase j: it becomes the current phrase with no chunks, and
      its countdown starts showing its text. */
  function MoveTo(s: Page, j: int): (r: Page)
    ensures r.index == j && r.chunks == []
    ensures r.countdownOpen && r.countdown == CountdownStart && r.countdownTarget == j
    ensures r.countdownText == if 0 <= j < |s.phrases| then s.phrases[j].text else ""
    ensures r == s.(index := j, chunks := [], countdownText := r.countdownText,
                    countdown := CountdownStart, countdownOpen := true, countdownTarget := j)
    ensures Invariant(s) && 0 <= j < |s.phrases| ==> Invariant(r)
  {
    TriggerPhraseAction(s.(index := j, chunks := []), j)
  }

  /** `handleNextPhrase`: stop a running recording, then move to the next
      phrase with no chunks and start its countdown, or, on the last phrase,
      stay and open the finish modal. */
  function HandleNextPhrase(s: Page): (r: Page)
    ensures r.isRecording == (s.isRecording && !s.hasRecorder)
    ensures s.index < |s.phrases| - 1 ==>
      r.index == s.index + 1 && r.chunks == [] && r.finishOpen == s.finishOpen
      && r.countdownOpen && r.countdown == CountdownStart && r.countdownTarget == r.index
    ensures 0 <= s.index + 1 < |s.phrases| ==> r.countdownText == s.phrases[s.index + 1].text
    ensures s.index + 1 < 0 ==> r.countdownText == ""
    ensures s.index >= |s.phrases| - 1 ==>
      r == s.(isRecording := r.isRecording, finishOpen := true)
    ensures r == s.(isRecording := r.isRecording, index := r.index, chunks := r.chunks,
                    finishOpen := r.finishOpen, countdownText := r.countdownText,
                    countdown := r.countdown, countdownOpen := r.countdownOpen,
                    countdownTarget := r.countdownTarget)
    ensures Invariant(s) ==> Invariant(r)
  {
    var t := StopIfRecording(s);
    if t.index < |t.phrases| - 1 then MoveTo(t, t.index + 1) else t.(finishOpen := true)
  }

  /** `handlePreviousPhrase`: stop a running recording, then move back one
      phrase with no chunks and start its countdown; on the first phrase
      nothing else happens. */
  function HandlePreviousPhrase(s: Page): (r: Page)
    ensures r.isRecording == (s.isRecording && !s.hasRecorder)
    ensures s.index > 0 ==>
      r.index == s.index - 1 && r.chunks == []
      && r.countdownOpen && r.countdown == CountdownStart && r.countdownTarget == r.index
    ensures 0 < s.index <= |s.phrases| ==> r.countdownText == s.phrases[s.index - 1].text
    ensures s.index > |s.phrases| ==> r.countdownText == ""
    ensures s.index <= 0 ==> r == s.(isRecording := r.isRecording)
    ensures r == s.(isRecording := r.isRecording, index := r.index, chunks := r.chunks,
                    countdownText := r.countdownText, countdown := r.countdown,
                    countdownOpen := r.countdownOpen, countdownTarget := r.countdownTarget)
    ensures Invariant(s) ==> Invariant(r)
  {
    var t := StopIfRecording(s);
    if t.index > 0 then MoveTo(t, t.index - 1) else t
  }

  /** `handleRestartRecording`: stop a running recording, clear the chunks
      and start recording again on the same phrase. */
  function HandleRestartRecording(s: Page, granted: bool): (r: Page)
    ensures r.chunks == [] && r.index == s.index
    ensures granted ==> r.isRecording && r.timer == 0 && r.hasRecorder
    ensures !granted && s.hasRecorder ==> !r.isRecording
    ensures !granted ==> r == s.(isRecording := s.isRecording && !s.hasRecorder, chunks := [])
    ensures r == s.(isRecording := r.isRecording, chunks := r.chunks, timer := r.timer,
                    hasRecorder := r.hasRecorder)
    ensures Invariant(s) ==> Invariant(r)
  {
    StartRecording(StopIfRecording(s).(chunks := []), granted)
  }

  // ---------------------------------------------------------- button guards

  /** The `disabled` expressions of the three buttons. */
  predicate NextDisabled(s: Page) {
    s.initialPlayback || s.countdownOpen
  }

  predicate PreviousDisabled(s: Page) {
    s.initialPlayback || s.countdownOpen || s.index == 0
  }

  predicate RestartDisabled(s: Page) {
    s.initialPlayback || s.countdownOpen || s.videoPlaying
  }

  /** A press of a button runs its handler unless the button is disabled,
      in which case it changes nothing. */
  function PressNext(s: Page): (r: Page)
    ensures NextDisabled(s) ==> r == s
    ensures !NextDisabled(s) ==> r == HandleNextPhrase(s)
    ensures Invariant(s) ==> Invariant(r)
  {
    if NextDisabled(s) then s else HandleNextPhrase(s)
  }

  function PressPrevious(s: Page): (r: Page)
    ensures PreviousDisabled(s) ==> r == s
    ensures !PreviousDisabled(s) ==> r == HandlePreviousPhrase(s)
    ensures Invariant(s) ==> Invariant(r)
  {
    if PreviousDisabled(s) then s else HandlePreviousPhrase(s)
  }

  function PressRestart(s: Page, granted: bool): (r: Page)
    ensures RestartDisabled(s) ==> r == s
    ensures !RestartDisabled(s) ==> r == HandleRestartRecording(s, granted)
    ensures Invariant(s) ==> Invariant(r)
  {
    if RestartDisabled(s) then s else HandleRestartRecording(s, granted)
  }

  /** While the countdown runs or the initial video plays, no button changes
      anything; at the first phrase "previous" does nothing, and "restart"
      does nothing while a video is shown. */
  lemma ButtonsDisabledDuringPrompt(s: Page, granted: bool)
    ensures s.countdownOpen || s.initialPlayback ==>
      PressNext(s) == s && PressPrevious(s) == s && PressRestart(s, granted) == s
    ensures s.index == 0 ==> PressPrevious(s) == s
    ensures s.videoPlaying ==> PressRestart(s, granted) == s
  {
  }

  // ---------------------------------------------------------------- events

  /** Everything that can happen to the page: a button press, or a browser
      event (timer tick, video outcome, recorder data). `granted` is the
      microphone's answer for a step that starts a recording. */
  datatype Event =
    | ClickStart
    | ClickNext
    | ClickPrevious
    | ClickRestart(granted: bool)
    | Tick(granted: bool)
    | VideoEnd(granted: bool)
    | VideoError
    | ChunkReady(chunk: Blob)
    | RecordingSecond
    | SessionSecond

  /** One event; moving to another phrase always clears the chunks and
      starts that phrase's countdown, and the index moves by at most one. */
  function Step(s: Page, e: Event): (r: Page)
    ensures Invariant(s) ==> Invariant(r)
    ensures r.phrases == s.phrases
    ensures s.index - 1 <= r.index <= s.index + 1
    ensures r.index != s.index ==>
      r.chunks == [] && r.countdownOpen && r.countdown == CountdownStart && r.countdownTarget == r.index
  {
    match e
    case ClickStart => HandleStartProcess(s)
    case ClickNext => PressNext(s)
    case ClickPrevious => PressPrevious(s)
    case ClickRestart(g) => PressRestart(s, g)
    case Tick(g) => CountdownTick(s, g)
    case VideoEnd(g) => HandleVideoEnd(s, g)
    case VideoError => VideoPlayFailed(s)
    case ChunkReady(c) => DataAvailable(s, c)
    case RecordingSecond => RecordingTimerTick(s)
    case SessionSecond => SessionTimerTick(s)
  }

  /** A sequence of events, applied in order. Whatever happens, the phrase
      list stays as loaded and the invariant is kept, so the index stays a
      valid position in the list (or 0 when the list is empty). */
  function Run(s: Page, events: seq<Event>): (r: Page)
    ensures r.phrases == s.phrases
    ensures Invariant(s) ==> Invariant(r)
    decreases |events|
  {
    if events == [] then s else Run(Step(s, events[0]), events[1..])
  }

  /** Running two sequences of events one after the other is running their
      concatenation. */
  lemma {:induction false} RunAppend(s: Page, a: seq<Event>, b: seq<Event>)
    ensures Run(s, a + b) == Run(Run(s, a), b)
    decreases |a|
  {
    if a == [] {
      assert a + b == b;
    } else {
      assert (a + b)[0] == a[0];
      assert (a + b)[1..] == a[1..] + b;
      RunAppend(Step(s, a[0]), a[1..], b);
    }
  }

  /** From the loaded page, every reachable state shows a valid phrase. */
  lemma ReachableIndexInRange(phrases: seq<Phrase>, events: seq<Event>)
    requires |phrases| > 0
    ensures 0 <= Run(Initial(phrases), events).index < |phrases|
  {
  }

  /** The countdown resolves after exactly three ticks: the first two leave
      it running at 2 and 1, the third leaves it at 0, closes it and runs the
      action of the phrase on screen. */
  lemma CountdownTakesThreeTicks(s: Page, g1: bool, g2: bool, g3: bool)
    requires Invariant(s) && s.countdownOpen && s.countdown == CountdownStart
    ensures var s1 := CountdownTick(s, g1);
            s1.countdownOpen && s1.countdown == 2
    ensures var s2 := CountdownTick(CountdownTick(s, g1), g2);
            s2.countdownOpen && s2.countdown == 1
    ensures var s3 := CountdownTick(CountdownTick(CountdownTick(s, g1), g2), g3);
            && !s3.countdownOpen && s3.countdown == 0
            && (VideoOf(s, s.index).Some? ==>
                  s3.videoPlaying && s3.initialPlayback && s3.videoSrc == VideoOf(s, s.index).value)
            && (VideoOf(s, s.index).None? && g3 ==> s3.isRecording && s3.timer == 0)
  {
  }

  // ------------------------------------------------------- level and time

  /** A JavaScript number as far as the level meter can produce one: the
      level of silence is `20 * log10(0)`, minus infinity. */
  datatype Float = Finite(x: real) | PositiveInfinity | NegativeInfinity | NaN

  datatype Color = Red | Yellow | Green

  /** `v > bound` under IEEE comparison (false for NaN). */
  predicate Above(v: Float, bound: real) {
    match v
    case Finite(x) => x > bound
    case PositiveInfinity => true
    case NegativeInfinity => false
    case NaN => false
  }

  /** `getDbfsColor`: red above -20 dBFS, yellow above -40 up to -20, green
      otherwise (silence and NaN included). */
  function DbfsColor(v: Float): (c: Color)
    ensures v.Finite? ==> (c == Red <==> v.x > -20.0)
    ensures v.Finite? ==> (c == Yellow <==> -40.0 < v.x <= -20.0)
    ensures v.Finite? ==> (c == Green <==> v.x <= -40.0)
    ensures v.PositiveInfinity? ==> c == Red
    ensures v.NegativeInfinity? || v.NaN? ==> c == Green
  {
    if Above(v, -20.0) then Red else if Above(v, -40.0) then Yellow else Green
  }

  /** How loud a colour says the signal is. */
  function Loudness(c: Color): nat {
    match c
    case Green => 0
    case Yellow => 1
    case Red => 2
  }

  /** The ordering of non-NaN numbers. */
  predicate AtMost(a: Float, b: Float)
    requires !a.NaN? && !b.NaN?
  {
    match a
    case NegativeInfinity => true
    case PositiveInfinity => b.PositiveInfinity?
    case Finite(x) => b.PositiveInfinity? || (b.Finite? && x <= b.x)
  }

  /** A louder level never gets a quieter colour. */
  lemma DbfsColorMonotone(a: Float, b: Float)
    requires !a.NaN? && !b.NaN? && AtMost(a, b)
    ensures Loudness(DbfsColor(a)) <= Loudness(DbfsColor(b))
  {
  }

  /** `formatTime`: the time in seconds shown as a clock, minutes and
      seconds each zero-padded to two digits. */
  function FormatTime(time: nat): (text: string)
    ensures ShowsClock(text, time)
  {
    var m := NatToString(time / 60);
    var mm := PadStart(m, 2, '0');
    var ss := PadStart(NatToString(time % 60), 2, '0');
    TwoDigitsAtMost(time % 60);
    PaddedValue(m);
    PaddedValue(NatToString(time % 60));
    assert |mm| == 2 || mm == m;
    ClockParts(mm, ss, time);
    mm + ":" + ss
  }

  /** `text` reads as a clock `MM:SS` showing `time` seconds: at least two
      minute digits and no zero in front of a third, a colon, exactly two
      second digits, fewer than 60 seconds, and 60 * MM + SS = time. */
  predicate ShowsClock(text: string, time: nat) {
    && |text| >= 5 && text[|text| - 3] == ':'
    && (|text| == 5 || text[0] != '0')
    && AllDigits(text[..|text| - 3]) && AllDigits(text[|text| - 2..])
    && 60 * DecimalValue(text[..|text| - 3]) + DecimalValue(text[|text| - 2..]) == time
    && DecimalValue(text[|text| - 2..]) < 60
  }

  /** Minutes and seconds joined by a colon show the time they add up to. */
  lemma ClockParts(mm: string, ss: string, time: nat)
    requires |mm| >= 2 && AllDigits(mm) && |ss| == 2 && AllDigits(ss)
    requires |mm| == 2 || mm[0] != '0'
    requires 60 * DecimalValue(mm) + DecimalValue(ss) == time && DecimalValue(ss) < 60
    ensures ShowsClock(mm + ":" + ss, time)
  {
    var r := mm + ":" + ss;
    assert r[..|r| - 3] == mm;
    assert r[|r| - 2..] == ss;
  }

  /** A number below 100 has at most two digits. */
  lemma TwoDigitsAtMost(n: nat)
    requires n < 100
    ensures |NatToString(n)| <= 2
  {
    if n >= 10 {
      assert NatToString(n) == NatToString(n / 10) + [DigitChar(n % 10)];
    }
  }

  /** Padding a digit string with zeros keeps its value. */
  lemma PaddedValue(s: string)
    requires AllDigits(s)
    ensures AllDigits(PadStart(s, 2, '0'))
    ensures DecimalValue(PadStart(s, 2, '0')) == DecimalValue(s)
  {
    if |s| < 2 {
      var z := seq(2 - |s|, _ => '0');
      LeadingZeros(z, s);
    }
  }
}
