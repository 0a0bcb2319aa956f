# ChatGPT Queue Pro content script, modelled in Dafny

The content script of the ChatGPT Queue Pro extension keeps a queue of prompts
for the ChatGPT page. It sends the next prompt whenever the chat is idle and
waits for each reply before sending another. This project models the parts of
`content.js` that decide what happens to the queue:

- **Page detectors** (`page.dfy`, module `Page`):
  - `isChatGPTResponding`, with its three rules: a visible stop button, stop
    text on an enabled form button, and the stop icon's path signature.
  - `getSendButton`: the `data-testid` button first, then a lower-cased
    `send`/`отправить` label.
  - `getInputEl`: eleven selectors tried in order.
  - `getInputValue` and `submitViaForm`.

  The page is a `Snapshot`: records for the buttons and the candidate input
  elements. `Page.Look` turns a snapshot into a `View`, the four answers the
  queue processor asks for.
- **String primitives** (`strings.dfy`, module `Strings`): JavaScript's
  `trim`, `toLowerCase` and `includes`.
- **Prompt chains** (`chain.dfy`, module `PromptChain`): `split('~')`, then
  `trim` on each piece, then dropping the empty pieces.
- **The completion wait** (`wait.dfy`, module `ResponseWait`):
  `waitForResponseFinish` is a polling loop. It resolves after three idle
  readings in a row and rejects once a reading is taken after the timeout
  (300 000 ms). The polls are a sequence of readings.
- **The queue state and everything that changes it** (`queue.dfy`, module
  `ContentScript`):
  - class `QueueState`, with the queue and the `isProcessing` flag
  - the popup's message handlers: `getStatus`, `clearQueue`, `runPromptChain`
    and `enqueuePrompt`
  - the Enter-key handler on the chat input
  - the mutation observer's wake-up
  - `processNextPrompt`

  Each call of `processNextPrompt` is one cycle, specified by the function
  `Cycle`. The chain of cycles that the `finally` block starts is specified
  by `Run`. The methods `ProcessNextPrompt` and `Drain` are proved equal to
  those functions. The lemmas about the functions state:
  - strict FIFO order
  - the `isProcessing` flag is released
  - a cooperative page drains the whole queue

`setTimeout` calls become returned wake-up delays: 100 ms after Enter,
500 ms after a popup message and 500 ms from the observer.

Consequences of the code that the proofs bring out:

- **A missing input makes the processor recurse.** When the input is missing,
  `processNextPrompt` puts the prompt back and returns before its first
  `await`, so its `finally` block sees the same idle page and calls it again
  at once (`RunSpinsWithoutInput`, `NoInputPersists`). Each such cycle leaves
  the queue and the flag as they were. In the program the calls are
  synchronous and nest until the engine's stack overflows. The model stops
  when the given environments run out, and does not say what the overflow
  does to the queue.
- **Rule 1 looks at one button only.** It takes the first button matching the
  first selector that matches at all. If that button is hidden, rule 1 says
  idle, even when some other stop button is visible
  (`HiddenFirstStopButtonMasksOthers`).
- **A third idle reading resolves even after the timeout.** The idle check
  comes before the timeout check, so such a reading resolves the wait rather
  than rejecting it (`WaitOutcomeCharacterized`).
- **The blank-chain test only short-cuts.** The `chain.trim()` test in front
  of the split only skips what the filter would conclude anyway
  (`BlankChainHasNoPrompts`).

## Model

| member | source | states |
|---|---|---|
| Strings.Trim | content.js:581 | `trim` returns a slice of its input, never longer than it |
| Strings.TrimIsUnique | content.js:581 | any pair of cut points that leaves only whitespace outside and a non-whitespace character at both ends of what remains is the one `trim` uses |
| Strings.TrimBounds | content.js:581 | the cut points `trim` uses leave only whitespace outside them, and a non-empty remainder starts and ends with non-whitespace |
| Strings.TrimIsTrimmed | content.js:581 | the result of `trim` has no whitespace at either end |
| Strings.TrimIdempotent | content.js:683 | trimming a trimmed string changes nothing |
| Strings.TrimEmptyIff | content.js:658 | `trim` gives the empty string exactly when the input is all whitespace |
| Strings.ToLowerChar | content.js:32-33 | capital Latin and Cyrillic letters map to their small letters; every other character is unchanged; no result is a capital |
| Strings.Contains | content.js:35 | `includes` holds exactly when the substring occurs at some index |
| PromptChain.Split | content.js:659 | `split('~')` gives at least one piece and no piece holds a separator |
| PromptChain.SplitCount | content.js:659 | `split('~')` gives one piece more than there are separators |
| PromptChain.JoinSplit | content.js:659 | joining the pieces with `~` gives back the original string |
| PromptChain.SplitJoin | content.js:659 | splitting the join of separator-free pieces gives back exactly those pieces |
| PromptChain.SplitAround | content.js:659 | a separator splits the string into the pieces on its left followed by those on its right |
| PromptChain.PromptsAppend | content.js:659 | the trim-and-filter stage works piece by piece and keeps order |
| PromptChain.PromptsOfPrompts | content.js:659 | pieces that are already non-empty and trimmed pass the trim-and-filter stage unchanged |
| PromptChain.Prompts | content.js:659 | `map(p => p.trim()).filter(p => p.length > 0)` keeps at most one prompt per piece, each non-empty and with nothing to trim, and adds no separator |
| PromptChain.ParseChain | content.js:659 | every prompt extracted from a chain is non-empty, has nothing to trim and holds no separator |
| PromptChain.ParseChainBound | content.js:659 | a chain gives at most one prompt more than it has separators |
| PromptChain.ParseChainAround | content.js:659 | the prompts of `a ~ b` are those of `a` followed by those of `b` |
| PromptChain.ParseChainJoin | content.js:659 | a chain written by joining prompts with `~` parses back to exactly those prompts, in order |
| PromptChain.ParseChainPiece | content.js:659 | a piece without separators gives its trimmed text, or nothing when that is empty |
| PromptChain.BlankChainHasNoPrompts | content.js:658-661 | an all-whitespace chain gives no prompts |
| PromptChain.TwoPromptChain | content.js:659 | `p ~ q ~ ` with spaces around the separators gives exactly `[p, q]`; the blank tail is dropped |
| PromptChain.ParseChainExample | content.js:659 | "write a poem ~ summarize it ~ " gives the two prompts "write a poem" and "summarize it" |
| Page.FirstWhere | content.js:20-22 | `querySelector`: the index found is the first candidate that matches, and none is found exactly when no candidate matches |
| Page.StopButton | content.js:20-22 | rule 1's button is the first labelled exactly "Stop generating"; failing that, the first whose label contains "Stop"; failing that, the first whose label contains "stop"; there is none exactly when no label passes any of the three tests |
| Page.ScanFormButtons | content.js:30-57 | the scan over enabled form buttons reports busy exactly when some such button shows stop or generating text, or the stop icon |
| Page.IsChatGPTResponding | content.js:16-61 | the chat is busy exactly when rule 1's button is visible, or some enabled form button signals busy by text or icon |
| Page.HiddenFirstStopButtonMasksOthers | content.js:20-27 | when the first "Stop generating" button is hidden and no form button signals busy, the chat reads idle, whatever other stop-labelled buttons show |
| Page.GetSendButton | content.js:82-99 | a button found is enabled and rendered. The first enabled test-id button is chosen whenever it is rendered. Otherwise the choice is the first button passing the label test, and none is found exactly when no button passes it. |
| Page.SendButtonReady | content.js:490-491 | the readiness test is true exactly when `getSendButton` found a button |
| Page.LocateFrom | content.js:63-80 | the element found is a candidate input. It is the first element in document order matching the first selector, from `k` on, that matches any element. None is found exactly when no such selector matches any element. |
| Page.GetInputEl | content.js:63-80 | the input is the first element in document order matched by the first of the eleven selectors that matches anything; there is none exactly when no selector matches |
| Page.InputMissingIff | content.js:63-80 | no input is found exactly when the page has no textarea, no `#prompt-textarea` and no contenteditable element |
| Page.TextAreaPreferred | content.js:65-78 | when a textarea exists, one of the six textarea-era selectors (0-5) wins, so the input chosen is a textarea or the `#prompt-textarea` element (which may itself be contenteditable); it is never one found only by a contenteditable selector (6-10) |
| Page.GetInputValue | content.js:112-115 | a missing element reads as the empty string, a textarea as its `value`, any other element as its `textContent` |
| Page.ClearedInputReadsEmpty | content.js:589-592 | after both `value` and `textContent` are set to the empty string, the input reads empty and trims to empty, whatever kind of element it is |
| Page.SubmitViaForm | content.js:101-110 | the form submit succeeds exactly when an input is found, it is inside a form, and the page does not cancel the event |
| ResponseWait.WaitFrom | content.js:526-556 | from tick `i` on, the wait settles at a later check within the readings: on an idle reading if it resolves, on a reading past the limit if it times out |
| ResponseWait.WaitOutcome | content.js:518-558 | the whole wait settles, if it does, at a check within the readings, and resolves only on an idle reading |
| ResponseWait.WaitForResponseFinish | content.js:518-558 | the tick loop gives the outcome `WaitOutcome` defines, and it settles at a check within the given readings |
| ResponseWait.TrailingIdleBound | content.js:533-545 | before the wait settles, the idle counter never exceeds two |
| ResponseWait.TickStep | content.js:526-553 | one tick resolves on the third idle reading in a row, otherwise rejects past the limit, otherwise goes on with the counter equal to the idle readings just before |
| ResponseWait.WaitFromCharacterized | content.js:526-556 | the wait settles at the first reading that ends three idle readings in a row, or that is past the limit, and is pending when no reading does either |
| ResponseWait.WaitOutcomeCharacterized | content.js:518-558 | the wait resolves at check k+1 iff readings k-2..k are idle and nothing settled it earlier; it times out at k+1 iff reading k is past the limit, does not complete three idle readings, and nothing settled it earlier; it is pending iff nothing settles it |
| ResponseWait.IdleStartResolves | content.js:533-541 | three idle readings at the start, the first two within the limit, resolve the wait at the third check: no busy reading is needed |
| ResponseWait.BusyResetsCount | content.js:543-545 | a busy reading rules out resolving at that check or at either of the next two |
| ResponseWait.TimeoutOnlyPastLimit | content.js:547-551 | rejection happens only on a reading taken after the limit |
| ResponseWait.SettlesByLimit | content.js:547-551 | once some reading is past the limit, the wait has settled by that check |
| ResponseWait.DebounceExample | content.js:533-545 | busy, idle, busy, idle, idle, idle resolves at the sixth check and is pending after each of the first five |
| ContentScript.Cycle | content.js:460-516 | a cycle is skipped exactly when it is already processing, the queue is empty or the chat is busy. Otherwise it takes the head of the queue. It puts the head back when there is no input, or when neither the button nor the form submits; otherwise it sends the head, by click exactly when the button is ready. The flag ends set exactly when it was set or the wait is still pending. The next cycle starts exactly when the `finally` block runs, prompts remain and the chat reads idle. |
| ContentScript.Run | content.js:509-515 | a chain of cycles has between one outcome and one per environment, and starts with the first cycle's outcome |
| ContentScript.CycleIsFifo | content.js:471-502 | one cycle sends at most the head of the queue and keeps the rest in order |
| ContentScript.RunIsFifo | content.js:460-516 | strict FIFO: the starting queue is the prompts the chain sent, in order, followed by the queue it leaves |
| ContentScript.RunShape | content.js:509-515 | no cycle but the last of a chain is skipped or still waiting; the flag stays set exactly when it started set or the last cycle is still waiting |
| ContentScript.RunSpinsWithoutInput | content.js:475-515 | on an idle page without an input, every cycle puts the same head back and starts the next at once, until the environments run out; the queue and the flag end unchanged |
| ContentScript.NoInputPersists | content.js:475-515 | once a cycle finds no input, every later cycle finds none, and the chain only ends when the environments do |
| ContentScript.CooperativeRunDrains | content.js:460-516 | on a page that keeps its input, lets every prompt through and goes idle after each reply, a chain sends the whole queue in order and ends with the queue empty and the flag clear |
| ContentScript.QueueState.constructor | content.js:10-11 | the script starts with an empty queue and `isProcessing` false |
| ContentScript.QueueState.HandleGetStatus | content.js:644-649 | `getStatus` answers with the queue, the busy detector's answer and the flag, and changes nothing |
| ContentScript.QueueState.HandleClearQueue | content.js:651-655 | `clearQueue` empties the queue, leaves the flag as it is and answers success |
| ContentScript.QueueState.HandleRunPromptChain | content.js:657-679 | a missing chain, or one with no prompts, answers "Empty chain" and changes nothing. Otherwise the chain's prompts are appended in order, the answer is success, and a 500 ms wake is asked for exactly when the chat is idle and not processing. |
| ContentScript.QueueState.HandleEnqueuePrompt | content.js:681-693 | a missing or blank prompt answers "Empty prompt" and changes nothing. Otherwise the trimmed prompt is appended, the answer is success, and a 500 ms wake is asked for exactly when the chat is idle and not processing. |
| ContentScript.QueueState.HandleMessage | content.js:641-697 | dispatches on the action with the effects above; an unknown action gets no response and changes nothing |
| ContentScript.QueueState.OnKeydown | content.js:576-611 | a plain Enter over non-blank text is intercepted: the trimmed text is appended, both input fields are emptied, and a 100 ms wake is asked for exactly when the chat is idle and not processing. Any other key leaves everything as it was. |
| ContentScript.QueueState.ObserverWake | content.js:625-631 | the observer asks for a 500 ms wake exactly when the chat is idle, prompts are waiting and no cycle runs |
| ContentScript.QueueState.ProcessNextPrompt | content.js:460-516 | one call changes the queue and flag exactly as `Cycle` says, and keeps every entry a trimmed non-empty prompt |
| ContentScript.QueueState.Drain | content.js:509-515 | a cycle and the cycles its `finally` block starts leave the outcomes, queue and flag that `Run` gives |
| ContentScript.ChainScenario | content.js:657-676 | a fresh script sent the chain `p ~ q ~ `, on a cooperative page, answers success and sends both prompts in order, ending with an empty queue and the flag clear |

## Left out

- `popup.js`, `create-icons.js` and `test-queue-behavior.js` are not part of this model: they are the popup UI, an icon generator and a test script.
- The queue UI, notifications and console logging are not modelled; they are treated as no-ops. This covers `createQueueUI` through `updateQueueUI` and `showNotification`. The model does not capture that `updateQueueUI` puts prompt text unescaped into `innerHTML`. There, markup in a prompt can add buttons or textareas that the detectors then see. For example, a `<button aria-label="Stop">` in a queued prompt would make the chat read busy for as long as it is queued.
- `setInputValue` and the synthetic `input`/`change` events are not modelled: they are DOM writes. The prompt written into the input reaches the model only through the detector answers given for the later looks.
- Timers are not executed:
  - `setTimeout`, `sleep` and the 1 s poll interval are returned as wake-up delays or folded into the readings.
  - `Date.now()` becomes each reading's `elapsed` value.
  - The 1 s grace period before the wait resolves is not modelled.
- MutationObserver registration, `attachInputHandler`'s `dataset.queueAttached` flag and its `input` listener, and `init` are not modelled: they are wiring. The observer's callback is modelled by `ObserverWake`.
- Concurrency is not modelled: each cycle of `processNextPrompt` is one atomic step. Message and key handlers running during its `await`s, and timers firing duplicate cycles, are left out.
- Exceptions are not modelled, apart from the timeout rejection that the `catch` block absorbs.
- The unbounded synchronous recursion on a missing input is not modelled as a stack overflow: `Run` and `Drain` stop when the given environments run out.
- The `return true` that keeps the message channel open is not modelled: it only matters to the browser.
- ContentScript.QueueState.ProcessNextPrompt and ContentScript.QueueState.Drain take the detectors' answers as `Page.View` values, not as snapshots. The model does not relate looks taken at different moments to one another, or to the snapshot the handlers see. `Page.Look` says how one snapshot gives a view.
- Strings.ToLowerChar: lowers only the Basic Latin capitals A-Z and the Cyrillic capitals U+0400-U+042F, which cover the letters of the detectors' keywords. Cyrillic capitals from U+0460 on (such as Ѡ and Ґ), other scripts and the special casings of `toLowerCase` are left unchanged.
- Page.IsChatGPTResponding: rule 1 of the busy detector matches labels case-sensitively, as the code's attribute selectors `Stop` and `stop` do, although the detector is described as a case-insensitive match. The model follows the code.
- ResponseWait.WaitForResponseFinish: the wait looks only for three idle readings in a row and never requires a busy reading first. A wait that starts before the reply has begun to stream therefore resolves after three idle polls (`IdleStartResolves`), not after a full idle, busy, idle cycle. The model follows the code.
- ResponseWait.WaitForResponseFinish: the polls are a finite sequence. A wait that has not settled when they end is `Pending`, and its cycle stays in progress with the flag set.
