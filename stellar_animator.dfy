/** The video chamber (components/StellarAnimator.tsx): a status machine driven by the user's
    handlers and by two interval timers. Each handler, each continuation after an `await`, and
    each firing of a timer is one event that changes the component's state at once. The vendor
    calls (key selection, starting and polling the generation, downloading the video) are not
    modelled: what they return is the event's parameter. */
module StellarAnimator {
  import opened Wrappers
  import opened Text

  /** Line 24. `CheckingKey` is declared but no handler ever sets it. */
  datatype Status = Idle | CheckingKey | Generating | Polling | Success | Error

  /** Lines 26-33: the messages shown while the video is made. */
  const LoadingMessages: seq<string> := [
    "Aligning cosmic frequencies...",
    "Gathering starlight...",
    "Weaving temporal threads...",
    "Synchronizing realities...",
    "Manifesting the vision...",
    "The animation is almost complete..."]

  const MissingSourceError := "Please provide a source image."
  const MissingKeyError := "An API key is required for video generation."
  const InvalidKeyError := "Your API key is invalid. Please select a valid key."
  const StartFailedError := "Failed to start video generation."
  const NoVideoError := "Generation finished but no video was found."
  const PollFailedError := "Failed to poll video status."
  const NotFoundMarker := "Requested entity was not found"

  /** JavaScript's `message || fallback` for the `message` of a thrown error, which may be
      missing or empty. */
  function MessageOr(message: Option<string>, fallback: string): (r: string)
    ensures r == fallback || message == Some(r)
    ensures fallback != "" ==> r != ""
  {
    if message.Some? && message.value != "" then message.value else fallback
  }

  /** The component's state.
      - `sourceFile`: the name of the chosen image file, if any;
      - `shownMessage`: the index into LoadingMessages of the message on screen;
      - `hasOperation`: whether `operationRef` holds an operation (it is never cleared);
      - `timersRunning`: whether the polling and message intervals are set and not cleared
        (they are always set together and cleared together);
      - `messageIndex`: the counter of the message interval's closure. */
  datatype Animator = Animator(
    sourceFile: Option<string>,
    status: Status,
    error: string,
    videoUrl: Option<string>,
    hasApiKey: bool,
    shownMessage: nat,
    hasOperation: bool,
    timersRunning: bool,
    messageIndex: nat)

  /** Lines 36-48: the state on mount. */
  const Initial := Animator(None, Idle, "", None, false, 0, false, false, 0)

  /** What the component keeps true between events: both message indices are in range, the
      timers run exactly while the status is `polling`, polling has an operation, and a
      success has a video. */
  predicate Inv(s: Animator) {
    && s.messageIndex < |LoadingMessages|
    && s.shownMessage < |LoadingMessages|
    && (s.timersRunning <==> s.status == Polling)
    && (s.status == Polling ==> s.hasOperation)
    && (s.status == Success ==> s.videoUrl.Some?)
  }

  lemma InitialInv()
    ensures Inv(Initial)
  { }

  /** `setStatus(next)` with the effect of lines 82-123, which re-runs when the status takes a
      new value: its cleanup clears both intervals, and when the new status is `polling` with
      an operation it sets them again and restarts the message counter at 0. */
  function WithStatus(s: Animator, next: Status): (r: Animator)
    ensures r.status == next
    ensures r.timersRunning <==> (if next == s.status then s.timersRunning else next == Polling && s.hasOperation)
    ensures r == s.(status := next, timersRunning := r.timersRunning, messageIndex := r.messageIndex)
    ensures r.messageIndex == (if next != s.status && r.timersRunning then 0 else s.messageIndex)
  {
    if next == s.status then s
    else if next == Polling && s.hasOperation then s.(status := next, timersRunning := true, messageIndex := 0)
    else s.(status := next, timersRunning := false)
  }

  /** Lines 66-73: the key check on mount; `answer` is None when the page offers no key
      selection, and the state is then unchanged. */
  function OnKeyChecked(s: Animator, answer: Option<bool>): Animator {
    if answer.Some? then s.(hasApiKey := answer.value) else s
  }

  /** Lines 125-131: choosing a file (None when the picker returns nothing). The context star's
      image, once fetched (lines 55-60), arrives the same way. */
  function OnFileChosen(s: Animator, file: Option<string>): Animator {
    if file.Some? then s.(sourceFile := file) else s
  }

  /** Lines 133-139: after the key dialog, a key is taken to be selected; without the dialog
      nothing changes. */
  function OnKeySelected(s: Animator, dialogAvailable: bool): Animator {
    if dialogAvailable then s.(hasApiKey := true) else s
  }

  /** Lines 141-158: the synchronous part of `handleAnimate` and its key check. `keySelected`
      is the answer of the final key check: None when the page offers no key selection, which
      reads as falsy. */
  function OnAnimate(s: Animator, keySelected: Option<bool>): Animator {
    if s.sourceFile.None? then s.(error := MissingSourceError)
    else if keySelected != Some(true) then s.(hasApiKey := false, error := MissingKeyError)
    else WithStatus(s.(hasApiKey := true), Generating).(error := "", videoUrl := None)
  }

  /** Lines 161-163: the generation started and returned its operation. */
  function OnGenerationStarted(s: Animator): Animator {
    WithStatus(s.(hasOperation := true), Polling)
  }

  /** Lines 164-171: starting the generation threw, with the given message. */
  function OnGenerationFailed(s: Animator, message: Option<string>): Animator {
    var t := if message.Some? && Includes(message.value, NotFoundMarker)
      then s.(error := InvalidKeyError, hasApiKey := false)
      else s.(error := MessageOr(message, StartFailedError));
    WithStatus(t, Error)
  }

  /** What one firing of the polling interval finds:
      - `Pending`: the operation is not done;
      - `Video(objectUrl)`: done with a video URI, and the download gave this object URL;
      - `NoVideo(vendorMessage)`: done without a (non-empty) URI, with the operation's error
        message if it has one;
      - `Failed(message)`: the poll or the download threw, with this message. */
  datatype PollOutcome = Pending | Video(objectUrl: string) | NoVideo(vendorMessage: Option<string>) | Failed(message: Option<string>)

  /** Lines 84-109: one firing of the polling interval. With the timers cleared nothing fires. */
  function OnPollTick(s: Animator, outcome: PollOutcome): Animator {
    if !s.timersRunning then s
    else
      match outcome
      case Pending => s
      case Video(url) => WithStatus(s.(timersRunning := false, videoUrl := Some(url)), Success)
      case NoVideo(vendorMessage) =>
        // line 100 throws with this message, which is never empty, and the catch shows it
        var thrown := MessageOr(vendorMessage, NoVideoError);
        WithStatus(s.(timersRunning := false, error := MessageOr(Some(thrown), PollFailedError)), Error)
      case Failed(message) =>
        WithStatus(s.(timersRunning := false, error := MessageOr(message, PollFailedError)), Error)
  }

  /** Lines 113-116: one firing of the message interval. */
  function OnMessageTick(s: Animator): Animator {
    if !s.timersRunning then s
    else
      var next := (s.messageIndex + 1) % |LoadingMessages|;
      s.(messageIndex := next, shownMessage := next)
  }

  /** Line 190: "Create Another" is on screen only with a success and a video. */
  function OnCreateAnother(s: Animator): Animator {
    if s.status == Success && s.videoUrl.Some? && s.videoUrl.value != "" then WithStatus(s, Idle) else s
  }

  datatype Event =
    | KeyChecked(answer: Option<bool>)
    | FileChosen(file: Option<string>)
    | KeySelected(dialogAvailable: bool)
    | Animate(keySelected: Option<bool>)
    | GenerationStarted
    | GenerationFailed(message: Option<string>)
    | PollTick(outcome: PollOutcome)
    | MessageTick
    | CreateAnother

  function Step(s: Animator, e: Event): Animator {
    match e
    case KeyChecked(answer) => OnKeyChecked(s, answer)
    case FileChosen(file) => OnFileChosen(s, file)
    case KeySelected(available) => OnKeySelected(s, available)
    case Animate(keySelected) => OnAnimate(s, keySelected)
    case GenerationStarted => OnGenerationStarted(s)
    case GenerationFailed(message) => OnGenerationFailed(s, message)
    case PollTick(outcome) => OnPollTick(s, outcome)
    case MessageTick => OnMessageTick(s)
    case CreateAnother => OnCreateAnother(s)
  }

  /** The state after a sequence of events. */
  function Run(s: Animator, events: seq<Event>): Animator
    decreases |events|
  {
    if events == [] then s else Run(Step(s, events[0]), events[1..])
  }

  /** Every event keeps the invariant. */
  lemma StepInv(s: Animator, e: Event)
    requires Inv(s)
    ensures Inv(Step(s, e))
  {
    match e
    case MessageTick =>
      assert |LoadingMessages| == 6;
    case _ =>
  }

  /** Every reachable state satisfies the invariant. */
  lemma {:induction false} RunInv(s: Animator, events: seq<Event>)
    requires Inv(s)
    ensures Inv(Run(s, events))
    decreases |events|
  {
    if events != [] {
      StepInv(s, events[0]);
      RunInv(Step(s, events[0]), events[1..]);
    }
  }

  /** Lines 142-145: without a source image only the error changes. */
  lemma AnimateWithoutSource(s: Animator, keySelected: Option<bool>)
    requires s.sourceFile.None?
    ensures OnAnimate(s, keySelected) == s.(error := MissingSourceError)
  { }

  /** Lines 148-153: without a selected key the key flag drops and the error is set; the status
      stays as it was. */
  lemma AnimateWithoutKey(s: Animator, keySelected: Option<bool>)
    requires s.sourceFile.Some? && keySelected != Some(true)
    ensures OnAnimate(s, keySelected) == s.(hasApiKey := false, error := MissingKeyError)
  { }

  /** Lines 154-158: otherwise generation begins with the error cleared and no video. */
  lemma AnimateStarts(s: Animator)
    requires Inv(s) && s.sourceFile.Some?
    ensures var r := OnAnimate(s, Some(true));
      r.status == Generating && r.error == "" && r.videoUrl.None? && r.hasApiKey && !r.timersRunning
  { }

  /** Lines 161-163: once the operation is there the status is `polling`, both timers run and
      the message counter is at 0 (unless polling was already under way). */
  lemma GenerationStartsPolling(s: Animator)
    requires Inv(s) && s.status != Polling
    ensures var r := OnGenerationStarted(s);
      r.status == Polling && r.timersRunning && r.hasOperation && r.messageIndex == 0
  { }

  /** Lines 164-171: a failure to start ends in `error`; a "not found" failure also marks the
      key as invalid, any other keeps the key flag and shows the message or a default. */
  lemma GenerationFailure(s: Animator, message: Option<string>)
    ensures var r := OnGenerationFailed(s, message);
      && r.status == Error
      && (message.Some? && Includes(message.value, NotFoundMarker) ==> r.error == InvalidKeyError && !r.hasApiKey)
      && (!(message.Some? && Includes(message.value, NotFoundMarker)) ==>
            r.hasApiKey == s.hasApiKey && r.error == MessageOr(message, StartFailedError))
  { }

  /** The state after `n` polls that find the operation not done. */
  function PendingPolls(s: Animator, n: nat): Animator
    decreases n
  {
    if n == 0 then s else PendingPolls(OnPollTick(s, Pending), n - 1)
  }

  /** Lines 84-89: there is no cap on the number of polls: any number of not-done results
      leaves the component polling, exactly as it was. */
  lemma {:induction false} PollingHasNoCap(s: Animator, n: nat)
    requires Inv(s) && s.status == Polling
    ensures PendingPolls(s, n) == s && PendingPolls(s, n).status == Polling
    decreases n
  {
    if n > 0 {
      assert OnPollTick(s, Pending) == s;
      PollingHasNoCap(s, n - 1);
    }
  }

  /** Lines 89-98: a done poll with a video ends in `success` with that video. */
  lemma PollFindsVideo(s: Animator, url: string)
    requires Inv(s) && s.status == Polling
    ensures var r := OnPollTick(s, Video(url));
      r.status == Success && r.videoUrl == Some(url) && !r.timersRunning
  { }

  /** Lines 99-101 and 103-107: done without a video ends in `error` with the operation's own
      message, or the default when it gives none. */
  lemma PollFindsNoVideo(s: Animator, vendorMessage: Option<string>)
    requires Inv(s) && s.status == Polling
    ensures var r := OnPollTick(s, NoVideo(vendorMessage));
      && r.status == Error && !r.timersRunning
      && (vendorMessage.Some? && vendorMessage.value != "" ==> r.error == vendorMessage.value)
      && (vendorMessage.None? || vendorMessage == Some("") ==> r.error == NoVideoError)
  { }

  /** Lines 103-108: any failure while polling ends in `error` and stops both timers. */
  lemma PollFailureStopsTimers(s: Animator, message: Option<string>)
    requires Inv(s) && s.status == Polling
    ensures var r := OnPollTick(s, Failed(message));
      r.status == Error && !r.timersRunning && r.error == MessageOr(message, PollFailedError) && r.error != ""
  { }

  /** Lines 83 and 119-122: polling happens only while the status is `polling`; in any other
      status neither timer fires. */
  lemma TimersOnlyWhilePolling(s: Animator, outcome: PollOutcome)
    requires Inv(s) && s.status != Polling
    ensures OnPollTick(s, outcome) == s && OnMessageTick(s) == s
  { }

  /** Lines 112-115: each tick advances the counter by one modulo six and shows that message. */
  lemma MessageTickAdvances(s: Animator)
    requires Inv(s) && s.status == Polling
    ensures var r := OnMessageTick(s);
      && r.messageIndex == (s.messageIndex + 1) % 6 && r.shownMessage == r.messageIndex
      && r.messageIndex < 6 && r.status == Polling
  {
    assert |LoadingMessages| == 6;
  }

  /** The state after `n` firings of the message interval. */
  function MessageTicks(s: Animator, n: nat): Animator
    decreases n
  {
    if n == 0 then s else MessageTicks(OnMessageTick(s), n - 1)
  }

  /** The messages cycle: after `n` ticks the counter is `n` steps further round the six
      messages, so six ticks bring back the same message. */
  lemma {:induction false} MessagesCycle(s: Animator, n: nat)
    requires Inv(s) && s.status == Polling
    ensures Inv(MessageTicks(s, n)) && MessageTicks(s, n).status == Polling
    ensures MessageTicks(s, n).messageIndex == (s.messageIndex + n) % 6
    decreases n
  {
    assert |LoadingMessages| == 6;
    if n > 0 {
      MessageTickAdvances(s);
      StepInv(s, MessageTick);
      var s1 := OnMessageTick(s);
      MessagesCycle(s1, n - 1);
      assert (s.messageIndex + 1) % 6 + (n - 1) == s.messageIndex + n - 6 * ((s.messageIndex + 1) / 6);
    }
  }

  /** A new polling run restarts the counter but not the message on screen: the first message
      seen is the last one of the previous run until the first tick. */
  lemma NewRunKeepsShownMessage(s: Animator)
    requires Inv(s) && s.status == Generating
    ensures OnGenerationStarted(s).shownMessage == s.shownMessage
    ensures OnGenerationStarted(s).messageIndex == 0
  { }

  /** Line 190: "Create Another" takes a success back to `idle`; the old video URL stays. */
  lemma CreateAnotherResets(s: Animator)
    requires Inv(s) && s.status == Success && s.videoUrl.value != ""
    ensures OnCreateAnother(s) == s.(status := Idle)
  { }

  /** Success is reached only by a poll that found the video. */
  lemma SuccessOnlyFromPolling(s: Animator, e: Event)
    requires Inv(s) && s.status != Success && Step(s, e).status == Success
    ensures s.status == Polling && e.PollTick? && e.outcome.Video?
  { }

  /** `idle` is re-entered only through "Create Another" after a success. */
  lemma IdleOnlyFromSuccess(s: Animator, e: Event)
    requires s.status != Idle && Step(s, e).status == Idle
    ensures s.status == Success && e.CreateAnother?
  { }

  /** One full run: choose a file, animate with a key, start, poll twice and get the video,
      then create another. */
  lemma HappyPath(file: string, url: string)
    requires url != ""
    ensures var done := Run(Initial, [FileChosen(Some(file)), Animate(Some(true)), GenerationStarted,
                                      PollTick(Pending), PollTick(Video(url))]);
      done.status == Success && done.videoUrl == Some(url)
      && Run(done, [CreateAnother]).status == Idle
  {
    var e1, e2, e3, e4, e5 := FileChosen(Some(file)), Animate(Some(true)), GenerationStarted,
                              PollTick(Pending), PollTick(Video(url));
    var s1 := Step(Initial, e1);
    var s2 := Step(s1, e2);
    var s3 := Step(s2, e3);
    assert s3.status == Polling && s3.timersRunning;
    var s4 := Step(s3, e4);
    var s5 := Step(s4, e5);
    assert s5.status == Success && s5.videoUrl == Some(url);
    assert [e5][1..] == [];
    assert Run(s4, [e5]) == s5;
    assert [e4, e5][1..] == [e5];
    assert Run(s3, [e4, e5]) == s5;
    assert [e3, e4, e5][1..] == [e4, e5];
    assert Run(s2, [e3, e4, e5]) == s5;
    assert [e2, e3, e4, e5][1..] == [e3, e4, e5];
    assert Run(s1, [e2, e3, e4, e5]) == s5;
    assert [e1, e2, e3, e4, e5][1..] == [e2, e3, e4, e5];
    assert Run(Initial, [e1, e2, e3, e4, e5]) == s5;
    assert Run(s5, [CreateAnother]) == Step(s5, CreateAnother) by {
      assert [CreateAnother][1..] == [];
    }
  }

  /** The component's state as a class whose fields its handlers and timer callbacks update. */
  class StellarAnimatorView {
    var sourceFile: Option<string>
    var status: Status
    var error: string
    var videoUrl: Option<string>
    var hasApiKey: bool
    var shownMessage: nat
    var hasOperation: bool
    var timersRunning: bool
    var messageIndex: nat

    function State(): Animator
      reads this
    {
      Animator(sourceFile, status, error, videoUrl, hasApiKey, shownMessage, hasOperation,
               timersRunning, messageIndex)
    }

    predicate Valid()
      reads this
    {
      Inv(State())
    }

    constructor ()
      ensures State() == Initial && Valid()
    {
      sourceFile := None;
      status := Idle;
      error := "";
      videoUrl := None;
      hasApiKey := false;
      shownMessage := 0;
      hasOperation := false;
      timersRunning := false;
      messageIndex := 0;
    }

    /** `setStatus` followed by the polling effect when the status changes. */
    method SetStatus(next: Status)
      modifies this
      ensures State() == WithStatus(old(State()), next)
    {
      if next != status {
        // the effect's cleanup clears both intervals
        timersRunning := false;
        status := next;
        if next == Polling && hasOperation {
          timersRunning := true;
          messageIndex := 0;
        }
      }
    }

    method CheckKey(answer: Option<bool>)
      requires Valid()
      modifies this
      ensures Valid() && State() == OnKeyChecked(old(State()), answer)
    {
      if answer.Some? {
        hasApiKey := answer.value;
      }
    }

    method ChooseFile(file: Option<string>)
      requires Valid()
      modifies this
      ensures Valid() && State() == OnFileChosen(old(State()), file)
    {
      if file.Some? {
        sourceFile := file;
      }
    }

    method SelectKey(dialogAvailable: bool)
      requires Valid()
      modifies this
      ensures Valid() && State() == OnKeySelected(old(State()), dialogAvailable)
    {
      if dialogAvailable {
        hasApiKey := true;
      }
    }

    method Animate(keySelected: Option<bool>)
      requires Valid()
      modifies this
      ensures Valid() && State() == OnAnimate(old(State()), keySelected)
    {
      if sourceFile.None? {
        error := MissingSourceError;
        return;
      }
      if keySelected != Some(true) {
        hasApiKey := false;
        error := MissingKeyError;
        return;
      }
      hasApiKey := true;
      SetStatus(Generating);
      error := "";
      videoUrl := None;
    }

    method GenerationStarted()
      requires Valid()
      modifies this
      ensures Valid() && State() == OnGenerationStarted(old(State()))
    {
      hasOperation := true;
      SetStatus(Polling);
    }

    method GenerationFailed(message: Option<string>)
      requires Valid()
      modifies this
      ensures Valid() && State() == OnGenerationFailed(old(State()), message)
    {
      if message.Some? && Includes(message.value, NotFoundMarker) {
        error := InvalidKeyError;
        hasApiKey := false;
      } else {
        error := MessageOr(message, StartFailedError);
      }
      SetStatus(Error);
    }

    method PollTick(outcome: PollOutcome)
      requires Valid()
      modifies this
      ensures Valid() && State() == OnPollTick(old(State()), outcome)
    {
      if !timersRunning {
        return;
      }
      match outcome
      case Pending =>
      case Video(url) =>
        timersRunning := false;
        videoUrl := Some(url);
        SetStatus(Success);
      case NoVideo(vendorMessage) =>
        timersRunning := false;
        error := MessageOr(Some(MessageOr(vendorMessage, NoVideoError)), PollFailedError);
        SetStatus(Error);
      case Failed(message) =>
        timersRunning := false;
        error := MessageOr(message, PollFailedError);
        SetStatus(Error);
    }

    method MessageTick()
      requires Valid()
      modifies this
      ensures Valid() && State() == OnMessageTick(old(State()))
    {
      if timersRunning {
        messageIndex := (messageIndex + 1) % |LoadingMessages|;
        shownMessage := messageIndex;
      }
    }

    method CreateAnother()
      requires Valid()
      modifies this
      ensures Valid() && State() == OnCreateAnother(old(State()))
    {
      if status == Success && videoUrl.Some? && videoUrl.value != "" {
        SetStatus(Idle);
      }
    }
  }
}
