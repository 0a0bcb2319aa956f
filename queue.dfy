/** The content script's state and everything that changes it
    (content.js:10-11, 460-516, 576-611, 625-631, 641-697): the prompt queue,
    the `isProcessing` flag, the popup's message handlers, the Enter-key
    handler on the chat input and the queue processor.

    The handlers are given the page as a `Snapshot`. A cycle of
    `processNextPrompt` is given what the detectors answer about the page
    (a `View`, which `Page.Look` computes from a snapshot) at each point it
    looks: when it starts (`now`); after the 150 ms settle delay
    (`env.settled`); at the completion polls (`env.readings`); and when its
    `finally` block runs once the wait is over (`env.after`). A cycle runs
    as one step: the handlers do not interleave with it. */
module ContentScript {
  import opened Wrappers
  import opened Strings
  import opened PromptChain
  import opened Page
  import opened ResponseWait

  /** The action names the listener dispatches on. */
  const KnownActions: set<string> := {"getStatus", "clearQueue", "runPromptChain", "enqueuePrompt"}

  /** Any other action name. */
  type UnknownAction = a: string | a !in KnownActions witness ""

  /** A message from the popup, by its `action`. A missing `chain` or
      `prompt` field is `None`. */
  datatype Request =
    | GetStatus
    | ClearQueue
    | RunPromptChain(chain: Option<string>)
    | EnqueuePrompt(prompt: Option<string>)
    | OtherAction(action: UnknownAction)

  /** What `sendResponse` is called with. */
  datatype Response =
    | Status(queue: seq<string>, isResponding: bool, isProcessing: bool)
    | Succeeded
    | Failed(error: string)

  const EmptyChainError: string := "Empty chain"
  const EmptyPromptError: string := "Empty prompt"

  /** The `setTimeout(processNextPrompt, …)` delays each trigger asks for. */
  const EnterWakeDelayMs: nat := 100
  const MessageWakeDelayMs: nat := 500
  const ObserverWakeDelayMs: nat := 500

  datatype KeyEvent = KeyEvent(key: string, shiftKey: bool, altKey: bool, ctrlKey: bool, metaKey: bool)

  /** An Enter press with no modifier key held. */
  predicate IsPlainEnter(ev: KeyEvent) {
    ev.key == "Enter" && !ev.shiftKey && !ev.altKey && !ev.ctrlKey && !ev.metaKey
  }

  datatype SkipReason = AlreadyProcessing | QueueEmpty | ChatBusy
  datatype RequeueReason = NoInput | NotSubmitted
  datatype SubmitPath = Clicked | FormSubmitted

  /** How one call of `processNextPrompt` went. `Sent` with a `Pending` wait
      is a cycle still waiting for the reply when the readings end: its
      `finally` block has not run yet. */
  datatype CycleOutcome =
    | Skipped(why: SkipReason)
    | Requeued(prompt: string, reason: RequeueReason)
    | Sent(prompt: string, path: SubmitPath, wait: WaitResult)
  {
    predicate StillWaiting() { Sent? && wait.Pending? }
    predicate IsNoInputRequeue() { Requeued? && reason == NoInput }
  }

  /** How the page looks to a cycle once it has started: after the settle
      delay, at each completion poll, and when the reply is over. */
  datatype CycleEnv = CycleEnv(settled: View, readings: seq<Reading>, after: View)

  /** The look the `finally` block takes. The missing-input path has no
      `await` before it returns, so its `finally` sees the page the cycle
      started on; a failed submit returns right after the settle delay. */
  function FinallyView(now: View, env: CycleEnv, outcome: CycleOutcome): View {
    match outcome
    case Requeued(_, NoInput) => now
    case Requeued(_, NotSubmitted) => env.settled
    case _ => env.after
  }

  /** What one call of `processNextPrompt` leaves behind: its outcome, the
      queue and the flag afterwards, whether its `finally` block calls it
      again, and the look that `finally` block took. */
  datatype CycleResult = CycleResult(outcome: CycleOutcome, queue: seq<string>, processing: bool, retrigger: bool, seen: View)

  /** One call of `processNextPrompt` (content.js:460-516) on queue `q` with
      flag `processing`, starting on look `now`. */
  function Cycle(q: seq<string>, processing: bool, now: View, env: CycleEnv): (r: CycleResult)
    // the guards: a cycle starts only when not already running, with prompts waiting, on an idle chat
    ensures r.outcome.Skipped? <==> processing || q == [] || now.responding
    ensures processing ==> r.outcome == Skipped(AlreadyProcessing)
    ensures !processing && q == [] ==> r.outcome == Skipped(QueueEmpty)
    ensures !processing && q != [] && now.responding ==> r.outcome == Skipped(ChatBusy)
    ensures r.outcome.Skipped? ==> r.queue == q && r.processing == processing && !r.retrigger
    // a started cycle works on the head of the queue
    ensures !r.outcome.Skipped? ==> q != [] && r.outcome.prompt == q[0]
    // a failure puts it back at the head; a submission takes it off and nothing else
    ensures r.outcome.Requeued? ==> r.queue == q
    ensures r.outcome.Sent? ==> r.queue == q[1..]
    ensures r.outcome.IsNoInputRequeue() <==> !r.outcome.Skipped? && !now.inputFound
    ensures r.outcome.Requeued? && r.outcome.reason == NotSubmitted <==>
      !r.outcome.Skipped? && now.inputFound && !env.settled.sendReady && !env.settled.formSubmits
    ensures r.outcome.Sent? ==> (r.outcome.path == Clicked <==> env.settled.sendReady)
    ensures r.outcome.Sent? ==> r.outcome.wait == WaitOutcome(env.readings, DefaultTimeoutMs)
    // the flag is released on every path that reaches `finally`
    ensures r.processing <==> processing || r.outcome.StillWaiting()
    // `finally` starts the next cycle when prompts remain and the chat reads idle
    ensures !r.outcome.Skipped? ==> r.seen == FinallyView(now, env, r.outcome)
    ensures r.retrigger <==>
      !r.outcome.Skipped? && !r.outcome.StillWaiting() && r.queue != [] && !r.seen.responding
    // with no input, `finally` sees the same idle page and starts the same cycle again at once
    ensures r.outcome.IsNoInputRequeue() ==> r.retrigger && r.seen == now && r.queue == q && !r.processing
  {
    if processing then CycleResult(Skipped(AlreadyProcessing), q, processing, false, now)
    else if q == [] then CycleResult(Skipped(QueueEmpty), q, processing, false, now)
    else if now.responding then CycleResult(Skipped(ChatBusy), q, processing, false, now)
    else if !now.inputFound then CycleResult(Requeued(q[0], NoInput), q, false, true, now)
    else if !env.settled.sendReady && !env.settled.formSubmits then
      CycleResult(Requeued(q[0], NotSubmitted), q, false, !env.settled.responding, env.settled)
    else
      var path := if env.settled.sendReady then Clicked else FormSubmitted;
      var w := WaitOutcome(env.readings, DefaultTimeoutMs);
      if w.Pending? then CycleResult(Sent(q[0], path, w), q[1..], true, false, env.after)
      else CycleResult(Sent(q[0], path, w), q[1..], false, |q| > 1 && !env.after.responding, env.after)
  }

  /** What a chain of cycles leaves behind. */
  datatype RunResult = RunResult(outcomes: seq<CycleOutcome>, queue: seq<string>, processing: bool)

  /** A cycle and the cycles its `finally` block starts in turn, the k-th on
      environment `envs[k]` and starting on the look the previous `finally`
      took, until one does not start another or the environments run out. */
  function Run(q: seq<string>, processing: bool, now: View, envs: seq<CycleEnv>): (r: RunResult)
    requires |envs| > 0
    ensures 1 <= |r.outcomes| <= |envs|
    ensures r.outcomes[0] == Cycle(q, processing, now, envs[0]).outcome
    decreases |envs|
  {
    var c := Cycle(q, processing, now, envs[0]);
    if c.retrigger && |envs| > 1 then
      var rest := Run(c.queue, c.processing, c.seen, envs[1..]);
      RunResult([c.outcome] + rest.outcomes, rest.queue, rest.processing)
    else
      RunResult([c.outcome], c.queue, c.processing)
  }

  /** The prompts that were submitted, in the order the cycles ran. */
  function SentPrompts(os: seq<CycleOutcome>): (ps: seq<string>)
    ensures |ps| <= |os|
  {
    if os == [] then []
    else (if os[0].Sent? then [os[0].prompt] else []) + SentPrompts(os[1..])
  }

  /** One cycle sends at most the head of the queue and keeps the rest in order. */
  lemma CycleIsFifo(q: seq<string>, processing: bool, now: View, env: CycleEnv)
    ensures var c := Cycle(q, processing, now, env);
      q == SentPrompts([c.outcome]) + c.queue
  {
    var c := Cycle(q, processing, now, env);
    assert [c.outcome][1..] == [];
    if c.outcome.Sent? {
      assert q == [q[0]] + q[1..];
    }
  }

  lemma SentPromptsCons(o: CycleOutcome, os: seq<CycleOutcome>)
    ensures SentPrompts([o] + os) == SentPrompts([o]) + SentPrompts(os)
  {
    assert ([o] + os)[1..] == os;
    assert [o][1..] == [];
  }

  /** Strict FIFO: the queue a chain starts from is the prompts it sent, in
      order, followed by the queue it leaves. */
  lemma {:induction false} RunIsFifo(q: seq<string>, processing: bool, now: View, envs: seq<CycleEnv>)
    requires |envs| > 0
    ensures q == SentPrompts(Run(q, processing, now, envs).outcomes) + Run(q, processing, now, envs).queue
    decreases |envs|
  {
    var c := Cycle(q, processing, now, envs[0]);
    CycleIsFifo(q, processing, now, envs[0]);
    if c.retrigger && |envs| > 1 {
      var rest := Run(c.queue, c.processing, c.seen, envs[1..]);
      RunIsFifo(c.queue, c.processing, c.seen, envs[1..]);
      SentPromptsCons(c.outcome, rest.outcomes);
      Regroup(q, SentPrompts([c.outcome]), c.queue, SentPrompts(rest.outcomes), rest.queue);
    }
  }

  /** Concatenation regrouped, for the step case above. */
  lemma Regroup<T>(q: seq<T>, front: seq<T>, middle: seq<T>, next: seq<T>, back: seq<T>)
    requires q == front + middle && middle == next + back
    ensures q == (front + next) + back
  {
  }

  /** Every cycle of a chain but the last started the next one, so none of
      them was skipped or is still waiting; the flag stays set exactly when
      it was set to begin with or the last cycle is still waiting. */
  lemma {:induction false} RunShape(q: seq<string>, processing: bool, now: View, envs: seq<CycleEnv>)
    requires |envs| > 0
    ensures var r := Run(q, processing, now, envs);
      && (forall k :: 0 <= k < |r.outcomes| - 1 ==> !r.outcomes[k].Skipped? && !r.outcomes[k].StillWaiting())
      && (r.processing <==> processing || r.outcomes[|r.outcomes| - 1].StillWaiting())
    decreases |envs|
  {
    var c := Cycle(q, processing, now, envs[0]);
    var r := Run(q, processing, now, envs);
    if c.retrigger && |envs| > 1 {
      var rest := Run(c.queue, c.processing, c.seen, envs[1..]);
      RunShape(c.queue, c.processing, c.seen, envs[1..]);
      assert r.outcomes == [c.outcome] + rest.outcomes;
      assert forall k :: 1 <= k < |r.outcomes| ==> r.outcomes[k] == rest.outcomes[k - 1];
    }
  }

  /** A cycle that starts on an idle page without an input puts its prompt
      back and starts an identical cycle at once: the chain spins on the
      same prompt for as long as there are environments. */
  lemma {:induction false} RunSpinsWithoutInput(q: seq<string>, processing: bool, now: View, envs: seq<CycleEnv>)
    requires |envs| > 0
    requires !processing && q != [] && !now.responding && !now.inputFound
    ensures var r := Run(q, processing, now, envs);
      && |r.outcomes| == |envs| && r.queue == q && !r.processing
      && forall k :: 0 <= k < |r.outcomes| ==> r.outcomes[k] == Requeued(q[0], NoInput)
    decreases |envs|
  {
    var c := Cycle(q, processing, now, envs[0]);
    var r := Run(q, processing, now, envs);
    if |envs| > 1 {
      var rest := Run(c.queue, c.processing, c.seen, envs[1..]);
      RunSpinsWithoutInput(c.queue, c.processing, c.seen, envs[1..]);
      assert r.outcomes == [c.outcome] + rest.outcomes;
      assert forall k :: 1 <= k < |r.outcomes| ==> r.outcomes[k] == rest.outcomes[k - 1];
    }
  }

  /** Once a cycle of a chain finds no input, every later cycle finds none
      either, and the chain only ends when the environments do. */
  lemma {:induction false} NoInputPersists(q: seq<string>, processing: bool, now: View, envs: seq<CycleEnv>)
    requires |envs| > 0
    ensures var r := Run(q, processing, now, envs);
      forall k :: 0 <= k < |r.outcomes| && r.outcomes[k].IsNoInputRequeue() ==>
        |r.outcomes| == |envs| && forall j :: k <= j < |r.outcomes| ==> r.outcomes[j].IsNoInputRequeue()
    decreases |envs|
  {
    var c := Cycle(q, processing, now, envs[0]);
    var r := Run(q, processing, now, envs);
    if c.outcome.IsNoInputRequeue() {
      RunSpinsWithoutInput(q, processing, now, envs);
    } else if c.retrigger && |envs| > 1 {
      var rest := Run(c.queue, c.processing, c.seen, envs[1..]);
      NoInputPersists(c.queue, c.processing, c.seen, envs[1..]);
      var later := envs[1..];
      assert rest == Run(c.queue, c.processing, c.seen, later);
      assert forall i :: 0 <= i < |rest.outcomes| && rest.outcomes[i].IsNoInputRequeue() ==> |rest.outcomes| == |later|;
      assert r.outcomes == [c.outcome] + rest.outcomes;
      forall k | 0 <= k < |r.outcomes| && r.outcomes[k].IsNoInputRequeue()
        ensures |r.outcomes| == |envs| && forall j :: k <= j < |r.outcomes| ==> r.outcomes[j].IsNoInputRequeue()
      {
        assert k >= 1 && r.outcomes[k] == rest.outcomes[k - 1];
        assert rest.outcomes[k - 1].IsNoInputRequeue();
        assert forall j :: k <= j < |r.outcomes| ==> r.outcomes[j] == rest.outcomes[j - 1];
      }
    } else {
      assert r.outcomes == [c.outcome];
    }
  }

  /** A cycle environment in which a prompt goes through: it can be
      submitted, the wait for the reply settles, and afterwards the chat is
      idle with its input still there. */
  predicate Cooperates(env: CycleEnv) {
    && (env.settled.sendReady || env.settled.formSubmits)
    && !WaitOutcome(env.readings, DefaultTimeoutMs).Pending?
    && !env.after.responding && env.after.inputFound
  }

  /** With an idle page that keeps its input and lets every prompt through,
      a chain sends the whole queue, one prompt per cycle, and ends with the
      queue empty and the flag clear. */
  lemma {:induction false} CooperativeRunDrains(q: seq<string>, now: View, envs: seq<CycleEnv>)
    requires |envs| > 0 && |q| <= |envs|
    requires !now.responding && now.inputFound
    requires forall k :: 0 <= k < |envs| ==> Cooperates(envs[k])
    ensures var r := Run(q, false, now, envs);
      r.queue == [] && SentPrompts(r.outcomes) == q && !r.processing
    decreases |envs|
  {
    var c := Cycle(q, false, now, envs[0]);
    var r := Run(q, false, now, envs);
    if q == [] {
      assert r.outcomes == [c.outcome];
    } else {
      assert Cooperates(envs[0]);
      if |q| > 1 {
        var rest := Run(c.queue, c.processing, c.seen, envs[1..]);
        assert forall k :: 0 <= k < |envs[1..]| ==> envs[1..][k] == envs[k + 1];
        CooperativeRunDrains(c.queue, c.seen, envs[1..]);
        assert r.outcomes[1..] == rest.outcomes;
        assert q == [q[0]] + q[1..];
      } else {
        assert r.outcomes[1..] == [];
      }
    }
  }

  class QueueState {
    var queue: seq<string>
    var isProcessing: bool

    /** Every queued entry is a prompt: non-empty and already trimmed. */
    ghost predicate Valid()
      reads this
    {
      forall k :: 0 <= k < |queue| ==> IsPrompt(queue[k])
    }

    /** The state when the script loads. */
    constructor ()
      ensures Valid() && queue == [] && !isProcessing
    {
      queue := [];
      isProcessing := false;
    }

    // ----- message handlers (content.js:641-697) -----

    /** `getStatus`: a copy of the queue and the two flags; nothing changes. */
    method HandleGetStatus(page: Snapshot) returns (resp: Response)
      ensures resp.Status?
      ensures resp.queue == queue && resp.isProcessing == isProcessing
      ensures resp.isResponding == IsChatGPTResponding(page)
    {
      resp := Status(queue, IsChatGPTResponding(page), isProcessing);
    }

    /** `clearQueue`: empty the queue. An in-flight cycle is not affected. */
    method HandleClearQueue() returns (resp: Response)
      requires Valid()
      modifies this
      ensures Valid()
      ensures queue == [] && isProcessing == old(isProcessing)
      ensures resp == Succeeded
    {
      queue := [];
      resp := Succeeded;
    }

    /** `runPromptChain`: append every prompt of the chain in order, or
      report "Empty chain" and change nothing. */
    method HandleRunPromptChain(chain: Option<string>, page: Snapshot) returns (resp: Response, wake: Option<nat>)
      requires Valid()
      modifies this
      ensures Valid() && isProcessing == old(isProcessing)
      ensures chain.None? || ParseChain(chain.value) == [] ==>
        resp == Failed(EmptyChainError) && queue == old(queue) && wake == None
      ensures chain.Some? && ParseChain(chain.value) != [] ==>
        && resp == Succeeded
        && queue == old(queue) + ParseChain(chain.value)
        && wake == (if !IsChatGPTResponding(page) && !isProcessing then Some(MessageWakeDelayMs) else None)
    {
      wake := None;
      if chain.Some? && Trim(chain.value) != [] {
        var prompts := ParseChain(chain.value);
        if |prompts| == 0 {
          resp := Failed(EmptyChainError);
          return;
        }
        queue := queue + prompts;
        if !IsChatGPTResponding(page) && !isProcessing {
          wake := Some(MessageWakeDelayMs);
        }
        resp := Succeeded;
      } else {
        if chain.Some? {
          TrimEmptyIff(chain.value);
          BlankChainHasNoPrompts(chain.value);
        }
        resp := Failed(EmptyChainError);
      }
    }

    /** `enqueuePrompt`: append the trimmed prompt, or report "Empty prompt"
      and change nothing. */
    method HandleEnqueuePrompt(prompt: Option<string>, page: Snapshot) returns (resp: Response, wake: Option<nat>)
      requires Valid()
      modifies this
      ensures Valid() && isProcessing == old(isProcessing)
      ensures prompt.None? || Trim(prompt.value) == [] ==>
        resp == Failed(EmptyPromptError) && queue == old(queue) && wake == None
      ensures prompt.Some? && Trim(prompt.value) != [] ==>
        && resp == Succeeded
        && queue == old(queue) + [Trim(prompt.value)]
        && wake == (if !IsChatGPTResponding(page) && !isProcessing then Some(MessageWakeDelayMs) else None)
    {
      wake := None;
      if prompt.Some? && Trim(prompt.value) != [] {
        TrimIsTrimmed(prompt.value);
        queue := queue + [Trim(prompt.value)];
        if !IsChatGPTResponding(page) && !isProcessing {
          wake := Some(MessageWakeDelayMs);
        }
        resp := Succeeded;
      } else {
        resp := Failed(EmptyPromptError);
      }
    }

    /** The `onMessage` listener: dispatch on the action. An unknown action
      gets no response and changes nothing. */
    method HandleMessage(req: Request, page: Snapshot) returns (resp: Option<Response>, wake: Option<nat>)
      requires Valid()
      modifies this
      ensures Valid() && isProcessing == old(isProcessing)
      ensures req.OtherAction? <==> resp.None?
      ensures req.OtherAction? || req.GetStatus? ==> queue == old(queue) && wake == None
      ensures req.GetStatus? ==> resp == Some(Status(queue, IsChatGPTResponding(page), isProcessing))
      ensures req.ClearQueue? ==> queue == [] && resp == Some(Succeeded) && wake == None
      ensures req.RunPromptChain? && (req.chain.None? || ParseChain(req.chain.value) == []) ==>
        queue == old(queue) && resp == Some(Failed(EmptyChainError)) && wake == None
      ensures req.RunPromptChain? && req.chain.Some? && ParseChain(req.chain.value) != [] ==>
        && queue == old(queue) + ParseChain(req.chain.value) && resp == Some(Succeeded)
        && wake == (if !IsChatGPTResponding(page) && !isProcessing then Some(MessageWakeDelayMs) else None)
      ensures req.EnqueuePrompt? && (req.prompt.None? || Trim(req.prompt.value) == []) ==>
        queue == old(queue) && resp == Some(Failed(EmptyPromptError)) && wake == None
      ensures req.EnqueuePrompt? && req.prompt.Some? && Trim(req.prompt.value) != [] ==>
        && queue == old(queue) + [Trim(req.prompt.value)] && resp == Some(Succeeded)
        && wake == (if !IsChatGPTResponding(page) && !isProcessing then Some(MessageWakeDelayMs) else None)
    {
      wake := None;
      match req
      case GetStatus =>
        var r := HandleGetStatus(page);
        resp := Some(r);
      case ClearQueue =>
        var r := HandleClearQueue();
        resp := Some(r);
      case RunPromptChain(chain) =>
        var r;
        r, wake := HandleRunPromptChain(chain, page);
        resp := Some(r);
      case EnqueuePrompt(prompt) =>
        var r;
        r, wake := HandleEnqueuePrompt(prompt, page);
        resp := Some(r);
      case OtherAction(_) =>
        resp := None;
    }

    // ----- the Enter handler on the chat input (content.js:576-611) -----

    /** A keydown on the input the handler is attached to. A plain Enter
      over non-blank text is intercepted: the native send is prevented, the
      trimmed text is queued and the input is emptied. */
    method OnKeydown(ev: KeyEvent, input: InputElement, page: Snapshot)
      returns (intercepted: bool, inputAfter: InputElement, wake: Option<nat>)
      requires Valid()
      modifies this
      ensures Valid() && isProcessing == old(isProcessing)
      ensures intercepted <==> IsPlainEnter(ev) && Trim(GetInputValue(Some(input))) != []
      ensures intercepted ==> queue == old(queue) + [Trim(GetInputValue(Some(input)))]
      ensures intercepted ==> inputAfter == input.(value := "", textContent := "")
      ensures !intercepted ==> queue == old(queue) && inputAfter == input && wake == None
      ensures intercepted ==>
        wake == (if !IsChatGPTResponding(page) && !isProcessing then Some(EnterWakeDelayMs) else None)
    {
      intercepted, inputAfter, wake := false, input, None;
      if ev.key != "Enter" { return; }
      if ev.shiftKey || ev.altKey || ev.ctrlKey || ev.metaKey { return; }
      var value := Trim(GetInputValue(Some(input)));
      if value == [] { return; }
      intercepted := true;
      TrimIsTrimmed(GetInputValue(Some(input)));
      queue := queue + [value];
      inputAfter := input.(value := "", textContent := "");
      if !IsChatGPTResponding(page) && !isProcessing {
        wake := Some(EnterWakeDelayMs);
      }
    }

    // ----- the mutation observer's wake-up (content.js:625-631) -----

    /** On every batch of page mutations: ask for a cycle when the chat is
      idle, prompts are waiting and no cycle is running. */
    method ObserverWake(page: Snapshot) returns (wake: Option<nat>)
      ensures wake.Some? <==> !IsChatGPTResponding(page) && |queue| > 0 && !isProcessing
      ensures wake.Some? ==> wake.value == ObserverWakeDelayMs
    {
      if !IsChatGPTResponding(page) && |queue| > 0 && !isProcessing {
        wake := Some(ObserverWakeDelayMs);
      } else {
        wake := None;
      }
    }

    // ----- the queue processor (content.js:460-516) -----

    /** One call of `processNextPrompt`. `retrigger` is the call its
      `finally` block makes when prompts remain and the chat reads idle,
      and `seen` the look that block took. */
    method ProcessNextPrompt(now: View, env: CycleEnv) returns (outcome: CycleOutcome, retrigger: bool, seen: View)
      requires Valid()
      modifies this
      ensures Valid()
      ensures CycleResult(outcome, queue, isProcessing, retrigger, seen) == Cycle(old(queue), old(isProcessing), now, env)
    {
      seen := now;
      if isProcessing { return Skipped(AlreadyProcessing), false, seen; }
      if |queue| == 0 { return Skipped(QueueEmpty), false, seen; }
      if now.responding { return Skipped(ChatBusy), false, seen; }

      isProcessing := true;
      var next := queue[0];
      queue := queue[1..];
      if !now.inputFound {
        queue := [next] + queue;
        outcome := Requeued(next, NoInput);
      } else {
        // the prompt is written into the input; 150 ms later the send button
        // is looked up, and the form is submitted when there is none
        var path, submitted := Clicked, true;
        if !env.settled.sendReady {
          path, submitted := FormSubmitted, env.settled.formSubmits;
        }
        if !submitted {
          queue := [next] + queue;
          outcome, seen := Requeued(next, NotSubmitted), env.settled;
        } else {
          var w := WaitForResponseFinish(env.readings, DefaultTimeoutMs);
          outcome, seen := Sent(next, path, w), env.after;
          if w.Pending? {
            return outcome, false, seen;
          }
        }
      }
      isProcessing := false;
      retrigger := |queue| > 0 && !seen.responding;
    }

    /** A cycle and the cycles its `finally` block starts in turn, one
      environment per cycle; each retriggered cycle starts on the look the
      previous `finally` took. */
    method Drain(now: View, envs: seq<CycleEnv>) returns (outcomes: seq<CycleOutcome>)
      requires Valid() && |envs| > 0
      modifies this
      ensures Valid()
      ensures RunResult(outcomes, queue, isProcessing) == Run(old(queue), old(isProcessing), now, envs)
      decreases |envs|
    {
      var o, again, seen := ProcessNextPrompt(now, envs[0]);
      if again && |envs| > 1 {
        var rest := Drain(seen, envs[1..]);
        outcomes := [o] + rest;
      } else {
        outcomes := [o];
      }
    }
  }

  /** The popup sends a chain of two prompts, written `p ~ q ~ ` as in the
      example "write a poem ~ summarize it ~ ", to a freshly loaded script
      while the page looks as it does after a cycle of `env`; cycles in which
      the page behaves like `env` then send both prompts in order and leave
      the queue empty and the processor free. */
  method ChainScenario(p: string, q: string, env: CycleEnv)
    returns (script: QueueState, resp: Response, outcomes: seq<CycleOutcome>)
    requires IsPrompt(p) && Separator !in p && IsPrompt(q) && Separator !in q
    requires Cooperates(env)
    ensures resp == Succeeded
    ensures SentPrompts(outcomes) == [p, q]
    ensures script.queue == [] && !script.isProcessing
  {
    var envs := [env, env];
    assert forall k :: 0 <= k < |envs| ==> Cooperates(envs[k]);
    script := new QueueState();
    var chain := p + " ~ " + q + " ~ ";
    TwoPromptChain(p, q);
    var wake;
    resp, wake := script.HandleRunPromptChain(Some(chain), Snapshot([], [], false));
    assert script.queue == [p, q] by {
      assert [] + ParseChain(chain) == ParseChain(chain);
    }
    CooperativeRunDrains([p, q], env.after, envs);
    outcomes := script.Drain(env.after, envs);
  }
}
