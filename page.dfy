/** What the content script reads from the chat page, as a snapshot of
    records instead of a live document: the buttons with the attributes the
    detection rules look at, the candidate text-entry elements, and whether
    the form would let a synthetic `submit` event through. On top of it, the
    read-only decisions `isChatGPTResponding`, `getSendButton`, `getInputEl`,
    `getInputValue` and `submitViaForm` (content.js:16-115). */
module Page {
  import opened Wrappers
  import opened Strings

  /** A `<button>` as the rules see it. A missing `aria-label` or
      `data-testid` is the empty string, as `getAttribute(...) || ''` makes it. */
  datatype Button = Button(
    ariaLabel: string,
    testId: string,
    textContent: string,
    innerText: string,
    disabled: bool,
    visible: bool,            // offsetParent !== null
    inForm: bool,             // has a <form> ancestor
    iconPath: Option<string>) // `d` of the first <path> of the first <svg>, if there is one

  datatype Tag = TextArea | OtherTag

  /** An element that one of the input selectors may pick. A missing
      attribute is the empty string. */
  datatype InputElement = InputElement(
    tag: Tag,
    id: string,
    dataId: string,
    contentEditable: string,  // the contenteditable attribute
    placeholder: string,
    inForm: bool,
    value: string,            // what a textarea holds
    textContent: string)

  /** The document at one instant. `submitAccepted` is what `dispatchEvent`
      on the input's form returns: the page's handlers did not cancel the event. */
  datatype Snapshot = Snapshot(
    buttons: seq<Button>,
    elements: seq<InputElement>,
    submitAccepted: bool)

  /** `querySelector` over candidates in document order: the first one `p` accepts. */
  function FirstWhere<T>(xs: seq<T>, p: T -> bool): (r: Option<nat>)
    ensures r.Some? ==> r.value < |xs| && p(xs[r.value])
    ensures r.Some? ==> forall j :: 0 <= j < r.value ==> !p(xs[j])
    ensures r.None? <==> forall j :: 0 <= j < |xs| ==> !p(xs[j])
  {
    if xs == [] then None
    else if p(xs[0]) then Some(0)
    else match FirstWhere(xs[1..], p)
      case None => None
      case Some(k) => Some(k + 1)
  }

  /** `xs[i]` is the first candidate `p` accepts, the one `querySelector`
      or `Array.prototype.find` returns. */
  ghost predicate IsFirst<T>(xs: seq<T>, p: T -> bool, i: int) {
    0 <= i < |xs| && p(xs[i]) && forall j :: 0 <= j < i ==> !p(xs[j])
  }

  // ----- isChatGPTResponding (content.js:16-61) -----

  predicate LabelIsStopGenerating(b: Button) { b.ariaLabel == "Stop generating" }
  predicate LabelHasStop(b: Button) { Contains(b.ariaLabel, "Stop") }
  predicate LabelHasLowerStop(b: Button) { Contains(b.ariaLabel, "stop") }

  /** The button the first rule settles on: the first one labelled exactly
      "Stop generating", else the first whose label contains "Stop", else the
      first whose label contains "stop" (three selectors, tried in turn). */
  function StopButton(bs: seq<Button>): (r: Option<nat>)
    ensures r.Some? ==>
      || IsFirst(bs, LabelIsStopGenerating, r.value)
      || ((forall j :: 0 <= j < |bs| ==> !LabelIsStopGenerating(bs[j])) && IsFirst(bs, LabelHasStop, r.value))
      || ((forall j :: 0 <= j < |bs| ==> !LabelIsStopGenerating(bs[j]) && !LabelHasStop(bs[j])) &&
          IsFirst(bs, LabelHasLowerStop, r.value))
    ensures r.None? <==>
      forall j :: 0 <= j < |bs| ==> !LabelIsStopGenerating(bs[j]) && !LabelHasStop(bs[j]) && !LabelHasLowerStop(bs[j])
  {
    match FirstWhere(bs, LabelIsStopGenerating)
    case Some(i) => Some(i)
    case None =>
      match FirstWhere(bs, LabelHasStop)
      case Some(i) => Some(i)
      case None => FirstWhere(bs, LabelHasLowerStop)
  }

  /** Rule 1: that button exists and is rendered. */
  predicate StopButtonShown(bs: seq<Button>) {
    match StopButton(bs)
    case Some(i) => i < |bs| && bs[i].visible
    case None => false
  }

  /** `form button:not([disabled])`. */
  predicate IsFormButton(b: Button) { b.inForm && !b.disabled }

  /** Rule 2: the button's text or label mentions stopping or generating. */
  predicate HasStopText(b: Button) {
    var text := ToLower(b.textContent + b.innerText);
    var aria := ToLower(b.ariaLabel);
    Contains(text, "stop") || Contains(aria, "stop") || Contains(aria, "generating")
  }

  const StopIconPart1: string := "M8.99992 16V6.41407"
  const StopIconPart2: string := "L5.70696 9.70704"
  const StopIconPart3: string := "L15.707 8.29298"

  /** Rule 3: the button's icon is the stop glyph. */
  predicate HasStopIcon(b: Button) {
    match b.iconPath
    case None => false
    case Some(d) => Contains(d, StopIconPart1) && Contains(d, StopIconPart2) && Contains(d, StopIconPart3)
  }

  predicate SignalsBusy(b: Button) {
    IsFormButton(b) && (HasStopText(b) || HasStopIcon(b))
  }

  /** The `for (const btn of formButtons)` scan with its early returns. */
  function ScanFormButtons(bs: seq<Button>): (busy: bool)
    ensures busy <==> exists j :: 0 <= j < |bs| && SignalsBusy(bs[j])
  {
    if bs == [] then false
    else if IsFormButton(bs[0]) && HasStopText(bs[0]) then true
    else if IsFormButton(bs[0]) && HasStopIcon(bs[0]) then true
    else
      var busy := ScanFormButtons(bs[1..]);
      assert forall j :: 1 <= j < |bs| ==> bs[j] == bs[1..][j - 1];
      busy
  }

  /** `isChatGPTResponding()`: rule 1, else rules 2 and 3 over the enabled
      buttons inside forms, else idle. */
  function IsChatGPTResponding(page: Snapshot): (busy: bool)
    ensures busy <==> (StopButtonShown(page.buttons) ||
      exists j :: 0 <= j < |page.buttons| && SignalsBusy(page.buttons[j]))
  {
    StopButtonShown(page.buttons) || ScanFormButtons(page.buttons)
  }

  /** Rule 1 looks at one button only: when the first button labelled
      "Stop generating" is not rendered, no other stop-labelled button is
      consulted by that rule, so a snapshot without any form button that
      signals reads idle. */
  lemma {:induction false} HiddenFirstStopButtonMasksOthers(page: Snapshot, i: nat)
    requires i < |page.buttons| && LabelIsStopGenerating(page.buttons[i]) && !page.buttons[i].visible
    requires forall j :: 0 <= j < i ==> !LabelIsStopGenerating(page.buttons[j])
    requires forall j :: 0 <= j < |page.buttons| ==> !SignalsBusy(page.buttons[j])
    ensures !IsChatGPTResponding(page)
  {
    var r := FirstWhere(page.buttons, LabelIsStopGenerating);
    assert r.Some?;
    assert r.value == i;
  }

  // ----- getSendButton (content.js:82-99) -----

  /** `button[data-testid="send-button"]:not([disabled])`. */
  predicate IsSendTestId(b: Button) { b.testId == "send-button" && !b.disabled }

  /** The fallback test: a non-empty label containing "send" or "отправить"
      in lower case, enabled and rendered. */
  predicate IsSendByLabel(b: Button) {
    var aria := ToLower(b.ariaLabel);
    aria != [] && (Contains(aria, "send") || Contains(aria, "отправить")) && !b.disabled && b.visible
  }

  /** `getSendButton()`: the first enabled test-id button if it is rendered,
      else the first button passing the label test, else none. */
  function GetSendButton(bs: seq<Button>): (r: Option<nat>)
    ensures r.Some? ==> r.value < |bs| && !bs[r.value].disabled && bs[r.value].visible
    // the first test-id button wins when it is rendered; otherwise the first label match
    ensures forall i :: IsFirst(bs, IsSendTestId, i) && bs[i].visible ==> r == Some(i)
    ensures r.Some? ==>
      || (IsFirst(bs, IsSendTestId, r.value) && bs[r.value].visible)
      || (IsFirst(bs, IsSendByLabel, r.value) && forall i :: IsFirst(bs, IsSendTestId, i) ==> !bs[i].visible)
    ensures r.None? <==>
      (match FirstWhere(bs, IsSendTestId)
       case Some(i) => !bs[i].visible
       case None => true) &&
      forall j :: 0 <= j < |bs| ==> !IsSendByLabel(bs[j])
  {
    match FirstWhere(bs, IsSendTestId)
    case Some(i) =>
      if bs[i].visible then Some(i) else FirstWhere(bs, IsSendByLabel)
    case None => FirstWhere(bs, IsSendByLabel)
  }

  /** What `processNextPrompt` tests before clicking: a button was found, is
      enabled and rendered (content.js:491). */
  predicate SendButtonReady(bs: seq<Button>)
    // the re-test repeats what `getSendButton` already ensures: ready exactly when found
    ensures SendButtonReady(bs) <==> GetSendButton(bs).Some?
  {
    match GetSendButton(bs)
    case Some(i) => i < |bs| && !bs[i].disabled && bs[i].visible
    case None => false
  }

  // ----- getInputEl (content.js:63-80) -----

  predicate IsEditable(e: InputElement) { e.contentEditable == "true" }

  /** The eleven selectors of `getInputEl`, numbered in the order they are tried. */
  predicate MatchesSelector(k: nat, e: InputElement) {
    match k
    case 0 => e.tag == TextArea && e.dataId == "root"
    case 1 => e.id == "prompt-textarea"
    case 2 => e.tag == TextArea && e.inForm
    case 3 => e.tag == TextArea && Contains(e.placeholder, "Message")
    case 4 => e.tag == TextArea && Contains(e.placeholder, "Ask")
    case 5 => e.tag == TextArea
    case 6 => IsEditable(e) && e.dataId == "root"
    case 7 => IsEditable(e) && e.inForm
    case 8 => IsEditable(e) && Contains(e.placeholder, "Message")
    case 9 => IsEditable(e) && Contains(e.placeholder, "Ask")
    case 10 => IsEditable(e)
    case _ => false
  }

  const SelectorCount: nat := 11

  /** An element some selector accepts. */
  predicate IsInputCandidate(e: InputElement) {
    e.tag == TextArea || e.id == "prompt-textarea" || IsEditable(e)
  }

  lemma SelectorsAcceptCandidates(k: nat, e: InputElement)
    ensures MatchesSelector(k, e) ==> IsInputCandidate(e)
    ensures IsInputCandidate(e) ==> MatchesSelector(1, e) || MatchesSelector(5, e) || MatchesSelector(10, e)
  {
  }

  /** Among selectors `k` and later, `s` is the first that matches any
      element, and `els[i]` is the first element in document order it matches. */
  ghost predicate ChosenBy(els: seq<InputElement>, k: nat, s: nat, i: nat) {
    && k <= s < SelectorCount
    && i < |els| && MatchesSelector(s, els[i])
    && (forall j :: 0 <= j < i ==> !MatchesSelector(s, els[j]))
    && forall t, j :: k <= t < s && 0 <= j < |els| ==> !MatchesSelector(t, els[j])
  }

  /** Selectors `k` and later, tried in turn, each by `querySelector`. */
  function LocateFrom(els: seq<InputElement>, k: nat): (r: Option<nat>)
    ensures r.Some? ==> r.value < |els| && IsInputCandidate(els[r.value])
    ensures r.Some? ==> exists s :: ChosenBy(els, k, s, r.value)
    ensures r.None? <==> forall t, j :: k <= t < SelectorCount && 0 <= j < |els| ==> !MatchesSelector(t, els[j])
    decreases SelectorCount - k
  {
    if k >= SelectorCount then None
    else match FirstWhere(els, e => MatchesSelector(k, e))
      case Some(i) =>
        SelectorsAcceptCandidates(k, els[i]);
        assert ChosenBy(els, k, k, i);
        Some(i)
      case None =>
        var r := LocateFrom(els, k + 1);
        if r.Some? then
          ChosenBySkips(els, k, k + 1, r.value);
          r
        else r
  }

  /** A selector that matches nothing does not change which one wins. */
  lemma ChosenBySkips(els: seq<InputElement>, k: nat, next: nat, i: nat)
    requires next == k + 1
    requires forall j :: 0 <= j < |els| ==> !MatchesSelector(k, els[j])
    requires exists s :: ChosenBy(els, next, s, i)
    ensures exists s :: ChosenBy(els, k, s, i)
  {
    var s :| ChosenBy(els, next, s, i);
    assert ChosenBy(els, k, s, i);
  }

  /** `getInputEl()`: the first element in document order matched by the
      first of the eleven selectors that matches anything, or none. */
  function GetInputEl(els: seq<InputElement>): (r: Option<nat>)
    ensures r.Some? ==> r.value < |els| && exists s :: ChosenBy(els, 0, s, r.value)
    ensures r.None? <==> forall t, j :: 0 <= t < SelectorCount && 0 <= j < |els| ==> !MatchesSelector(t, els[j])
  {
    LocateFrom(els, 0)
  }

  /** The input is missing exactly when the page has no textarea, no
      `#prompt-textarea` and no contenteditable element. */
  lemma {:induction false} InputMissingIff(els: seq<InputElement>)
    ensures GetInputEl(els).None? <==> forall j :: 0 <= j < |els| ==> !IsInputCandidate(els[j])
  {
    if GetInputEl(els).None? {
      forall j | 0 <= j < |els| ensures !IsInputCandidate(els[j]) {
        SelectorsAcceptCandidates(0, els[j]);
      }
    } else {
      var i := GetInputEl(els).value;
      assert IsInputCandidate(els[i]);
    }
  }

  /** The legacy textarea wins: whenever the page has a textarea, the input
      chosen is a textarea or the `#prompt-textarea` element, never a
      contenteditable one found by a later selector. */
  lemma {:induction false} TextAreaPreferred(els: seq<InputElement>, j: nat)
    requires j < |els| && els[j].tag == TextArea
    ensures GetInputEl(els).Some?
    ensures els[GetInputEl(els).value].tag == TextArea || els[GetInputEl(els).value].id == "prompt-textarea"
    ensures exists s :: s <= 5 && ChosenBy(els, 0, s, GetInputEl(els).value)
  {
    assert MatchesSelector(5, els[j]);
    var i := GetInputEl(els).value;
    var s :| ChosenBy(els, 0, s, i);
    assert s <= 5;
  }

  /** `getInputValue(el)`: a textarea's value, otherwise its text. */
  function GetInputValue(el: Option<InputElement>): (v: string)
    ensures el.None? ==> v == ""
    ensures el.Some? && el.value.tag == TextArea ==> v == el.value.value
    ensures el.Some? && el.value.tag != TextArea ==> v == el.value.textContent
  {
    match el
    case None => ""
    case Some(e) => if e.tag == TextArea then e.value else e.textContent
  }

  /** Clearing both fields, as the Enter handler does, leaves the input
      reading empty whatever kind of element it is. */
  lemma ClearedInputReadsEmpty(e: InputElement)
    ensures GetInputValue(Some(e.(value := "", textContent := ""))) == ""
    ensures Trim(GetInputValue(Some(e.(value := "", textContent := "")))) == ""
  {
    assert TrimsTo("", 0, 0);
    TrimIsUnique("", 0, 0);
  }

  // ----- submitViaForm (content.js:101-110) -----

  /** `submitViaForm()`: find the input again, its enclosing form, and report
      whether the synthetic `submit` event went through. */
  function SubmitViaForm(page: Snapshot): (sent: bool)
    ensures sent ==> page.submitAccepted
    ensures sent <==> (GetInputEl(page.elements).Some? &&
      page.elements[GetInputEl(page.elements).value].inForm && page.submitAccepted)
  {
    match GetInputEl(page.elements)
    case None => false
    case Some(i) => page.elements[i].inForm && page.submitAccepted
  }

  // ----- one look at the page, as the queue processor takes it -----

  /** The answers the queue processor gets from the detectors above at one
      moment: whether the chat is responding, whether an input was found,
      whether a send button is ready and whether the form fallback would
      submit. */
  datatype View = View(responding: bool, inputFound: bool, sendReady: bool, formSubmits: bool)

  function Look(page: Snapshot): View {
    View(IsChatGPTResponding(page), GetInputEl(page.elements).Some?, SendButtonReady(page.buttons), SubmitViaForm(page))
  }
}
