/**
 * The batch scraper's page work for one product URL: closing pop-ups, entering the
 * delivery pincode, selecting a size, reading the seller and the delivery estimate, and
 * turning what happened into one output row.
 */
module ScraperBulk {
  import opened Base
  import opened Text
  import opened Browser
  import opened Chain
  import opened Normalise
  import opened Records

  // ----- clicking -----

  /** What `element_to_be_clickable` waits for. */
  predicate Clickable(e: Element) {
    e.displayed && e.enabled
  }

  /**
   * `safe_click`: a click as soon as the element is clickable; when the wait times out
   * or the click is intercepted, a scroll into view and one more attempt; any other
   * failure gives false.
   */
  function SafeClickSpec(e: Element): Acted<bool> {
    if !Clickable(e) then Acted(false, [ScrollIntoView(e)])
    else
      match e.onClick
      case Clicked => Acted(true, [Click(e)])
      case Refused => Acted(false, [Click(e)])
      case Intercepted => Acted(e.onClickAfterScroll == Clicked, [Click(e), ScrollIntoView(e), Click(e)])
  }

  /**
   * A click succeeds exactly when the clickable element takes the first click, or the
   * second one after an intercepted first; no more than two clicks are dispatched, and
   * only the given element is touched.
   */
  lemma {:induction false} SafeClickRetriesOnce(e: Element)
    ensures SafeClickSpec(e).result <==>
      Clickable(e) && (e.onClick == Clicked || (e.onClick == Intercepted && e.onClickAfterScroll == Clicked))
    ensures multiset(SafeClickSpec(e).events)[Click(e)] <= 2
    ensures forall ev :: ev in SafeClickSpec(e).events ==> ev == Click(e) || ev == ScrollIntoView(e)
    ensures !Clickable(e) ==> Click(e) !in SafeClickSpec(e).events
  {
  }

  method SafeClick(d: Driver, e: Element) returns (ok: bool)
    modifies d
    ensures ok == SafeClickSpec(e).result
    ensures d.events == old(d.events) + SafeClickSpec(e).events
  {
    if Clickable(e) {
      var outcome := d.Click(e, false);
      if outcome == Clicked {
        return true;
      } else if outcome == Refused {
        return false;
      }
    }
    d.ScrollIntoView(e);
    if !Clickable(e) {
      return false;
    }
    var retry := d.Click(e, true);
    ok := retry == Clicked;
  }

  /** A found element clicked with `safe_click`: a hit when the click succeeds. */
  function ClickProbe(e: Element): Acted<Probe<()>> {
    var c := SafeClickSpec(e);
    Acted(if c.result then Hit(()) else Miss, c.events)
  }

  // ----- pop-ups -----

  const PopupCloses: seq<Selector> := [
    Css("div.app-container span.css-xyxdrg"),
    XPath("//div[@class='desktop-previos-btn']/span"),
    XPath("//div[contains(@class, 'modal-content')]//button[contains(text(), 'X')]")]

  /** One close-button attempt; every exception is swallowed and counts as a miss. */
  function CloseAttempt(p: Page, sel: Selector): Acted<Probe<()>> {
    match SafeFind(p, sel)
    case Ok(Some(b)) => ClickProbe(b)
    case _ => Acted(Miss, [])
  }

  function CloseAttempts(p: Page): (attempts: seq<Acted<Probe<()>>>)
    ensures |attempts| == |PopupCloses|
  {
    seq(|PopupCloses|, i requires 0 <= i < |PopupCloses| => CloseAttempt(p, PopupCloses[i]))
  }

  /** The Escape key sent to the page body, when there is a body that takes keys. */
  function EscapeEvents(p: Page): seq<Event> {
    match FindElement(p, BodyTag)
    case Ok(b) => if b.acceptsKeys then [PressKey(b, Escape)] else []
    case Err(_) => []
  }

  /** `handle_popups`: the first close button that can be clicked, else Escape on the body. */
  function HandlePopupsSpec(p: Page): Acted<bool> {
    var chain := RunChain(CloseAttempts(p));
    if chain.result.Hit? then Acted(true, chain.events)
    else Acted(false, chain.events + EscapeEvents(p))
  }

  /**
   * Closing pop-ups never raises, reports true exactly when one of the close buttons
   * was clicked, and presses Escape only when none was.
   */
  lemma {:induction false} PopupsReportClosing(p: Page)
    ensures HandlePopupsSpec(p).result <==>
      exists i :: 0 <= i < |PopupCloses| && CloseAttempts(p)[i].result.Hit?
    ensures HandlePopupsSpec(p).result ==>
      forall ev :: ev in HandlePopupsSpec(p).events ==> !ev.PressKey?
  {
    var attempts := CloseAttempts(p);
    assert forall i, ev :: 0 <= i < |attempts| && ev in attempts[i].events ==> !ev.PressKey?;
    RunChainDecided(attempts);
    if !RunChain(attempts).result.Miss? {
      var k :| 0 <= k < |attempts| && MissesBefore(attempts, k) && !attempts[k].result.Miss?;
      RunChainHit(attempts, k);
      EventsOfMembers(attempts[..k + 1]);
    }
  }

  /** One close-button attempt. */
  method TryClose(d: Driver, sel: Selector) returns (outcome: Probe<()>)
    modifies d
    ensures outcome == CloseAttempt(d.page, sel).result
    ensures d.events == old(d.events) + CloseAttempt(d.page, sel).events
  {
    var found := SafeFind(d.page, sel);
    outcome := Miss;
    if found.Ok? && found.value.Some? {
      var ok := SafeClick(d, found.value.value);
      if ok {
        outcome := Hit(());
      }
    }
  }

  method HandlePopups(d: Driver) returns (closed: bool)
    modifies d
    ensures closed == HandlePopupsSpec(d.page).result
    ensures d.events == old(d.events) + HandlePopupsSpec(d.page).events
  {
    ghost var attempts := CloseAttempts(d.page);
    var i := 0;
    while i < |PopupCloses|
      invariant 0 <= i <= |PopupCloses|
      invariant d.events == old(d.events) + EventsOf(attempts[..i])
      invariant MissesBefore(attempts, i)
    {
      var outcome := TryClose(d, PopupCloses[i]);
      RunChainStep(attempts, i, old(d.events));
      if outcome.Hit? {
        return true;
      }
      i := i + 1;
    }
    RunChainDone(attempts);
    var body := FindElement(d.page, BodyTag);
    if body.Ok? {
      var _ := d.PressKey(body.value, Escape);
    }
    closed := false;
  }

  // ----- pincode -----

  const PincodeInputs: seq<Selector> := [
    Css("input[placeholder*='Pincode']"),
    Css("input[placeholder*='PIN']"),
    Css("input[name*='pincode']"),
    Css("input[id*='pincode']"),
    Css("input[aria-label*='pincode']"),
    XPath("//label[contains(text(), 'Pincode')]/following-sibling::input")]

  /** The first four end in a stray `"),"`, exactly as the batch scraper spells them. */
  const ConfirmButtons: seq<Selector> := [
    XPath("//button[contains(., 'Check')]),"),
    XPath("//button[contains(., 'Apply')]),"),
    XPath("//button[contains(., 'CHECK')]),"),
    XPath("//button[contains(., 'Apply Pincode')]),"),
    Css("div.pincode-check-container button")]

  /** One confirm-button attempt; a fault from the lookup aborts the button search. */
  function ButtonAttempt(p: Page, sel: Selector): Acted<Probe<()>> {
    match SafeFind(p, sel)
    case Err(f) => Acted(Abort(f), [])
    case Ok(None) => Acted(Miss, [])
    case Ok(Some(b)) => ClickProbe(b)
  }

  function ButtonAttempts(p: Page, buttons: seq<Selector>): (attempts: seq<Acted<Probe<()>>>)
    ensures |attempts| == |buttons|
  {
    seq(|buttons|, i requires 0 <= i < |buttons| => ButtonAttempt(p, buttons[i]))
  }

  /**
   * One pincode-input attempt. A lookup fault escapes; an input that refuses keys, or a
   * fault during the button search, moves on to the next input; otherwise the pincode
   * is typed and confirmed with a button or, when none is clicked, with Enter.
   */
  function InputAttempt(p: Page, sel: Selector, pincode: string, confirm: Acted<Probe<()>>): Acted<Probe<()>> {
    match SafeFind(p, sel)
    case Err(f) => Acted(Abort(f), [])
    case Ok(None) => Acted(Miss, [])
    case Ok(Some(input)) =>
      if !input.acceptsKeys then Acted(Miss, [])
      else
        var typed := [Clear(input), SendKeys(input, pincode)];
        match confirm.result
        case Hit(_) => Acted(Hit(()), typed + confirm.events)
        case Abort(_) => Acted(Miss, typed + confirm.events)
        case Miss => Acted(Hit(()), typed + confirm.events + [PressKey(input, Enter)])
  }

  function InputAttempts(p: Page, inputs: seq<Selector>, pincode: string, confirm: Acted<Probe<()>>): (attempts: seq<Acted<Probe<()>>>)
    ensures |attempts| == |inputs|
  {
    seq(|inputs|, i requires 0 <= i < |inputs| => InputAttempt(p, inputs[i], pincode, confirm))
  }

  /** `enter_pincode`: true once an input took the pincode, an error when a lookup raised. */
  function EnterPincodeSpec(p: Page, pincode: string): Acted<Result<bool, Fault>> {
    Decided(RunChain(InputAttempts(p, PincodeInputs, pincode, RunChain(ButtonAttempts(p, ConfirmButtons)))))
  }

  /** One attempt of the button search. */
  method TryButton(d: Driver, sel: Selector) returns (outcome: Probe<()>)
    modifies d
    ensures outcome == ButtonAttempt(d.page, sel).result
    ensures d.events == old(d.events) + ButtonAttempt(d.page, sel).events
  {
    var found := SafeFind(d.page, sel);
    if found.Err? {
      return Abort(found.error);
    }
    outcome := Miss;
    if found.value.Some? {
      var ok := SafeClick(d, found.value.value);
      if ok {
        outcome := Hit(());
      }
    }
  }

  /** The button search of `enter_pincode`, after the pincode has been typed. */
  method ConfirmPincode(d: Driver, buttons: seq<Selector>) returns (outcome: Probe<()>)
    modifies d
    ensures outcome == RunChain(ButtonAttempts(d.page, buttons)).result
    ensures d.events == old(d.events) + RunChain(ButtonAttempts(d.page, buttons)).events
  {
    ghost var attempts := ButtonAttempts(d.page, buttons);
    var i := 0;
    while i < |buttons|
      invariant 0 <= i <= |buttons|
      invariant d.events == old(d.events) + EventsOf(attempts[..i])
      invariant MissesBefore(attempts, i)
    {
      outcome := TryButton(d, buttons[i]);
      RunChainStep(attempts, i, old(d.events));
      if !outcome.Miss? {
        return;
      }
      i := i + 1;
    }
    RunChainDone(attempts);
    outcome := Miss;
  }

  /** One attempt of the input search: find, type, confirm. */
  method TryInput(d: Driver, sel: Selector, pincode: string, buttons: seq<Selector>) returns (outcome: Probe<()>)
    modifies d
    ensures outcome == InputAttempt(d.page, sel, pincode, RunChain(ButtonAttempts(d.page, buttons))).result
    ensures d.events == old(d.events) + InputAttempt(d.page, sel, pincode, RunChain(ButtonAttempts(d.page, buttons))).events
  {
    var found := SafeFind(d.page, sel);
    if found.Err? {
      return Abort(found.error);
    }
    outcome := Miss;
    if found.value.Some? {
      var input := found.value.value;
      var cleared := d.Clear(input);
      if cleared {
        var typed := d.SendKeys(input, pincode);
        var confirm := ConfirmPincode(d, buttons);
        if confirm.Hit? {
          outcome := Hit(());
        } else if confirm.Miss? {
          var _ := d.PressKey(input, Enter);
          outcome := Hit(());
        }
      }
    }
  }

  /** The input search of `enter_pincode` over the given input selectors. */
  method SearchInputs(d: Driver, inputs: seq<Selector>, pincode: string, buttons: seq<Selector>) returns (outcome: Probe<()>)
    modifies d
    ensures outcome == RunChain(InputAttempts(d.page, inputs, pincode, RunChain(ButtonAttempts(d.page, buttons)))).result
    ensures d.events == old(d.events) + RunChain(InputAttempts(d.page, inputs, pincode, RunChain(ButtonAttempts(d.page, buttons)))).events
  {
    ghost var attempts := InputAttempts(d.page, inputs, pincode, RunChain(ButtonAttempts(d.page, buttons)));
    var i := 0;
    while i < |inputs|
      invariant 0 <= i <= |inputs|
      invariant d.events == old(d.events) + EventsOf(attempts[..i])
      invariant MissesBefore(attempts, i)
    {
      outcome := TryInput(d, inputs[i], pincode, buttons);
      RunChainStep(attempts, i, old(d.events));
      if !outcome.Miss? {
        return;
      }
      i := i + 1;
    }
    RunChainDone(attempts);
    outcome := Miss;
  }

  method EnterPincode(d: Driver, pincode: string) returns (r: Result<bool, Fault>)
    modifies d
    ensures r == EnterPincodeSpec(d.page, pincode).result
    ensures d.events == old(d.events) + EnterPincodeSpec(d.page, pincode).events
  {
    var outcome := SearchInputs(d, PincodeInputs, pincode, ConfirmButtons);
    r := match outcome
      case Hit(_) => Ok(true)
      case Miss => Ok(false)
      case Abort(f) => Err(f);
  }

  /**
   * An input takes the pincode when it is found, takes keystrokes and its button search
   * does not raise (a raising search is swallowed and the next input is tried).
   */
  predicate Fillable(p: Page, sel: Selector) {
    && SafeFind(p, sel).Ok? && SafeFind(p, sel).value.Some?
    && SafeFind(p, sel).value.value.acceptsKeys
    && !RunChain(ButtonAttempts(p, ConfirmButtons)).result.Abort?
  }

  lemma {:induction false} InputAttemptMisses(p: Page, sel: Selector, pincode: string)
    ensures var attempt := InputAttempt(p, sel, pincode, RunChain(ButtonAttempts(p, ConfirmButtons)));
      && (attempt.result.Miss? <==> SafeFind(p, sel).Ok? && !Fillable(p, sel))
      && (attempt.result.Abort? <==> SafeFind(p, sel).Err?)
  {
  }

  /** Each input's attempt misses or aborts according to its own lookup alone. */
  lemma {:induction false} InputAttemptsClassified(p: Page, pincode: string)
    ensures var attempts := InputAttempts(p, PincodeInputs, pincode, RunChain(ButtonAttempts(p, ConfirmButtons)));
      forall i :: 0 <= i < |attempts| ==>
        && (attempts[i].result.Miss? <==> SafeFind(p, PincodeInputs[i]).Ok? && !Fillable(p, PincodeInputs[i]))
        && (attempts[i].result.Abort? <==> SafeFind(p, PincodeInputs[i]).Err?)
  {
    var attempts := InputAttempts(p, PincodeInputs, pincode, RunChain(ButtonAttempts(p, ConfirmButtons)));
    forall i | 0 <= i < |attempts|
      ensures attempts[i].result.Miss? <==> SafeFind(p, PincodeInputs[i]).Ok? && !Fillable(p, PincodeInputs[i])
      ensures attempts[i].result.Abort? <==> SafeFind(p, PincodeInputs[i]).Err?
    {
      InputAttemptMisses(p, PincodeInputs[i], pincode);
    }
  }

  /**
   * `enter_pincode` gives false exactly when every input lookup answers without raising
   * and none of them yields a fillable input.
   */
  lemma {:induction false} PincodeNotEntered(p: Page, pincode: string)
    ensures EnterPincodeSpec(p, pincode).result == Ok(false) <==>
      forall i :: 0 <= i < |PincodeInputs| ==> SafeFind(p, PincodeInputs[i]).Ok? && !Fillable(p, PincodeInputs[i])
  {
    var attempts := InputAttempts(p, PincodeInputs, pincode, RunChain(ButtonAttempts(p, ConfirmButtons)));
    InputAttemptsClassified(p, pincode);
    RunChainDecided(attempts);
    if RunChain(attempts).result.Miss? {
      RunChainExhausted(attempts);
    } else {
      var k :| 0 <= k < |attempts| && MissesBefore(attempts, k) && !attempts[k].result.Miss?;
      RunChainHit(attempts, k);
    }
  }

  /**
   * The pincode is reported entered only after it was typed into a pincode input, and
   * a reported error is the fault of the first input lookup that raises, every input
   * before it having answered without being fillable.
   */
  lemma {:induction false} PincodeEnteredMeansTyped(p: Page, pincode: string)
    ensures EnterPincodeSpec(p, pincode).result == Ok(true) ==>
      exists e :: SendKeys(e, pincode) in EnterPincodeSpec(p, pincode).events
    ensures EnterPincodeSpec(p, pincode).result.Err? ==>
      exists i :: 0 <= i < |PincodeInputs| && SafeFind(p, PincodeInputs[i]) == Err(EnterPincodeSpec(p, pincode).result.error)
        && forall j :: 0 <= j < i ==> SafeFind(p, PincodeInputs[j]).Ok? && !Fillable(p, PincodeInputs[j])
  {
    var attempts := InputAttempts(p, PincodeInputs, pincode, RunChain(ButtonAttempts(p, ConfirmButtons)));
    RunChainDecided(attempts);
    if !RunChain(attempts).result.Miss? {
      var k :| 0 <= k < |attempts| && MissesBefore(attempts, k) && !attempts[k].result.Miss?;
      RunChainHit(attempts, k);
      EventsOfSnoc(attempts, k);
      var input := SafeFind(p, PincodeInputs[k]);
      if input.Ok? && input.value.Some? {
        assert SendKeys(input.value.value, pincode) in attempts[k].events;
      }
      if RunChain(attempts).result.Abort? {
        assert SafeFind(p, PincodeInputs[k]) == Err(RunChain(attempts).result.fault);
        forall j | 0 <= j < k
          ensures SafeFind(p, PincodeInputs[j]).Ok? && !Fillable(p, PincodeInputs[j])
        {
          assert attempts[j].result.Miss?;
          InputAttemptMisses(p, PincodeInputs[j], pincode);
        }
      }
    }
  }

  /**
   * The four XPaths with a stray `"),"` are not valid XPath. A browser that rejects the
   * first of them with an exception makes every input's button search fail, so the
   * pincode, though typed, is never confirmed and `enter_pincode` never returns true.
   */
  lemma {:induction false} MalformedButtonsNeverConfirm(p: Page, pincode: string, f: Fault)
    requires Locate(p, ConfirmButtons[0]) == Raised(f)
    requires f.kind !in {Timeout, NoSuchElement}
    ensures EnterPincodeSpec(p, pincode).result != Ok(true)
    ensures forall ev :: ev in EnterPincodeSpec(p, pincode).events ==> !ev.PressKey?
  {
    var buttons := ButtonAttempts(p, ConfirmButtons);
    assert buttons[0] == Acted(Abort(f), []);
    var confirm := RunChain(buttons);
    assert confirm == Acted(Abort(f), []);
    var attempts := InputAttempts(p, PincodeInputs, pincode, confirm);
    assert forall i :: 0 <= i < |attempts| ==> !attempts[i].result.Hit?;
    assert forall i, ev :: 0 <= i < |attempts| && ev in attempts[i].events ==> !ev.PressKey?;
    RunChainDecided(attempts);
    if !RunChain(attempts).result.Miss? {
      var k :| 0 <= k < |attempts| && MissesBefore(attempts, k) && !attempts[k].result.Miss?;
      RunChainHit(attempts, k);
      EventsOfMembers(attempts[..k + 1]);
    } else {
      RunChainExhausted(attempts);
      EventsOfMembers(attempts);
    }
  }


  // ----- size -----

  const SizeSelectors: seq<Selector> := [
    Css("div.size-buttons-details button"),
    Css("div.pdp-size-layout button"),
    Css("ul.size-list li button"),
    Css("button.size-buttons"),
    Css("button.size-option"),
    Css("div.size-list button")]

  const ButtonTag := Tag("button")

  /** The button captions the fallback accepts as a size. */
  const SizeLabels: set<string> := {"S", "M", "L", "XL", "XS", "XXL", "XXXL"}

  /** Displayed, enabled and not already selected. */
  predicate Selectable(e: Element) {
    e.displayed && e.enabled && !Contains(e.cls, "selected")
  }

  /** One size candidate: clicked only when selectable. */
  function SizeAttempt(e: Element): Acted<Probe<()>> {
    if Selectable(e) then ClickProbe(e) else Acted(Miss, [])
  }

  /** One fallback button: tried only when its caption names a size. */
  function LabelledAttempt(b: Element): Acted<Probe<()>> {
    if Upper(Strip(b.text)) in SizeLabels then SizeAttempt(b) else Acted(Miss, [])
  }

  /** The attempts for the elements one size selector lists; a failing lookup escapes. */
  function SizeGroup(l: Listing): seq<Acted<Probe<()>>> {
    match l
    case ListRaised(f) => [Acted(Abort(f), [])]
    case Listed(es) => seq(|es|, k requires 0 <= k < |es| => SizeAttempt(es[k]))
  }

  function SizeGroups(p: Page, selectors: seq<Selector>): (groups: seq<seq<Acted<Probe<()>>>>)
    ensures |groups| == |selectors|
  {
    seq(|selectors|, i requires 0 <= i < |selectors| => SizeGroup(LocateAll(p, selectors[i])))
  }

  /** The attempts for every `<button>` on the page. */
  function LabelledGroup(l: Listing): seq<Acted<Probe<()>>> {
    match l
    case ListRaised(f) => [Acted(Abort(f), [])]
    case Listed(es) => seq(|es|, k requires 0 <= k < |es| => LabelledAttempt(es[k]))
  }

  /**
   * `click_first_size`: the first selectable element listed by a size selector, in
   * selector order, else the first selectable button captioned with a size.
   */
  function ClickFirstSizeSpec(p: Page): Acted<Result<bool, Fault>> {
    Decided(RunChain(Flatten(SizeGroups(p, SizeSelectors)) + LabelledGroup(LocateAll(p, ButtonTag))))
  }

  /** One size candidate, as `click_first_size` tries it. */
  method TrySize(d: Driver, e: Element) returns (outcome: Probe<()>)
    modifies d
    ensures outcome == SizeAttempt(e).result
    ensures d.events == old(d.events) + SizeAttempt(e).events
  {
    outcome := Miss;
    if Selectable(e) {
      var ok := SafeClick(d, e);
      if ok {
        outcome := Hit(());
      }
    }
  }

  /** The elements one size selector lists, tried in order; a failing lookup escapes. */
  method SearchSizeGroup(d: Driver, listing: Listing) returns (outcome: Probe<()>)
    modifies d
    ensures outcome == RunChain(SizeGroup(listing)).result
    ensures d.events == old(d.events) + RunChain(SizeGroup(listing)).events
  {
    ghost var attempts := SizeGroup(listing);
    if listing.ListRaised? {
      return Abort(listing.fault);
    }
    var es := listing.elements;
    var j := 0;
    while j < |es|
      invariant 0 <= j <= |es| && |attempts| == |es|
      invariant d.events == old(d.events) + EventsOf(attempts[..j])
      invariant MissesBefore(attempts, j)
    {
      outcome := TrySize(d, es[j]);
      RunChainStep(attempts, j, old(d.events));
      if !outcome.Miss? {
        return;
      }
      j := j + 1;
    }
    RunChainDone(attempts);
    outcome := Miss;
  }

  /** The elements listed by the size selectors, selector by selector, in order. */
  method SearchSizes(d: Driver, selectors: seq<Selector>) returns (outcome: Probe<()>)
    modifies d
    ensures outcome == RunChain(Flatten(SizeGroups(d.page, selectors))).result
    ensures d.events == old(d.events) + RunChain(Flatten(SizeGroups(d.page, selectors))).events
  {
    ghost var groups := SizeGroups(d.page, selectors);
    var i := 0;
    while i < |selectors|
      invariant 0 <= i <= |selectors|
      invariant d.events == old(d.events) + EventsOf(Flatten(groups[..i]))
      invariant MissesBefore(Flatten(groups[..i]), |Flatten(groups[..i])|)
    {
      var listing := LocateAll(d.page, selectors[i]);
      assert groups[i] == SizeGroup(listing);
      outcome := SearchSizeGroup(d, listing);
      RunChainGroupRun(groups, i, old(d.events));
      if !outcome.Miss? {
        return;
      }
      i := i + 1;
    }
    RunChainGroupsExhausted(groups);
    outcome := Miss;
  }

  /** One `<button>` of the fallback: tried only when its caption names a size. */
  method TryLabelled(d: Driver, b: Element) returns (outcome: Probe<()>)
    modifies d
    ensures outcome == LabelledAttempt(b).result
    ensures d.events == old(d.events) + LabelledAttempt(b).events
  {
    outcome := Miss;
    if Upper(Strip(b.text)) in SizeLabels {
      outcome := TrySize(d, b);
    }
  }

  /** The fallback over every `<button>` on the page. */
  method SearchLabelled(d: Driver) returns (outcome: Probe<()>)
    modifies d
    ensures outcome == RunChain(LabelledGroup(LocateAll(d.page, ButtonTag))).result
    ensures d.events == old(d.events) + RunChain(LabelledGroup(LocateAll(d.page, ButtonTag))).events
  {
    ghost var attempts := LabelledGroup(LocateAll(d.page, ButtonTag));
    var listing := LocateAll(d.page, ButtonTag);
    if listing.ListRaised? {
      RunChainStep(attempts, 0, old(d.events));
      assert attempts[..1] == attempts;
      return Abort(listing.fault);
    }
    var buttons := listing.elements;
    var j := 0;
    while j < |buttons|
      invariant 0 <= j <= |buttons| && |attempts| == |buttons|
      invariant d.events == old(d.events) + EventsOf(attempts[..j])
      invariant MissesBefore(attempts, j)
    {
      outcome := TryLabelled(d, buttons[j]);
      RunChainStep(attempts, j, old(d.events));
      if !outcome.Miss? {
        return;
      }
      j := j + 1;
    }
    RunChainDone(attempts);
    outcome := Miss;
  }

  method ClickFirstSize(d: Driver) returns (r: Result<bool, Fault>)
    modifies d
    ensures r == ClickFirstSizeSpec(d.page).result
    ensures d.events == old(d.events) + ClickFirstSizeSpec(d.page).events
  {
    ghost var listed := Flatten(SizeGroups(d.page, SizeSelectors));
    ghost var labelled := LabelledGroup(LocateAll(d.page, ButtonTag));
    RunChainAppend(listed, labelled);
    var outcome := SearchSizes(d, SizeSelectors);
    if outcome.Miss? {
      outcome := SearchLabelled(d);
      AppendAssoc(old(d.events), RunChain(listed).events, RunChain(labelled).events);
    }
    r := match outcome
      case Hit(_) => Ok(true)
      case Miss => Ok(false)
      case Abort(f) => Err(f);
  }

  /** The attempt touches nothing but selectable elements, and clicks one when it hits. */
  ghost predicate TouchesSelectable(a: Acted<Probe<()>>) {
    && (forall ev :: ev in a.events ==> (ev.Click? || ev.ScrollIntoView?) && Selectable(ev.target))
    && (a.result.Hit? ==> exists e :: Selectable(e) && Click(e) in a.events)
  }

  lemma {:induction false} SizeAttemptTouchesSelectable(e: Element)
    ensures TouchesSelectable(SizeAttempt(e)) && TouchesSelectable(LabelledAttempt(e))
  {
    if Selectable(e) && SafeClickSpec(e).result {
      assert Click(e) in SafeClickSpec(e).events;
    }
  }

  lemma {:induction false} GroupsTouchSelectable(p: Page)
    ensures forall a :: a in Flatten(SizeGroups(p, SizeSelectors)) + LabelledGroup(LocateAll(p, ButtonTag)) ==> TouchesSelectable(a)
  {
    var groups := SizeGroups(p, SizeSelectors);
    forall i, a | 0 <= i < |groups| && a in groups[i]
      ensures TouchesSelectable(a)
    {
      var l := LocateAll(p, SizeSelectors[i]);
      if l.Listed? {
        var k :| 0 <= k < |l.elements| && a == groups[i][k];
        SizeAttemptTouchesSelectable(l.elements[k]);
      }
    }
    FlattenMembers(groups);
    var l := LocateAll(p, ButtonTag);
    if l.Listed? {
      forall a | a in LabelledGroup(l)
        ensures TouchesSelectable(a)
      {
        var k :| 0 <= k < |l.elements| && a == LabelledGroup(l)[k];
        SizeAttemptTouchesSelectable(l.elements[k]);
      }
    }
  }

  /**
   * Selecting a size clicks and scrolls to selectable elements only (displayed,
   * enabled, not yet selected), and reports success only after clicking one of them.
   */
  lemma {:induction false} SizeClicksOnlySelectable(p: Page)
    ensures forall ev :: ev in ClickFirstSizeSpec(p).events ==>
      (ev.Click? || ev.ScrollIntoView?) && Selectable(ev.target)
    ensures ClickFirstSizeSpec(p).result == Ok(true) ==>
      exists e :: Selectable(e) && Click(e) in ClickFirstSizeSpec(p).events
  {
    var all := Flatten(SizeGroups(p, SizeSelectors)) + LabelledGroup(LocateAll(p, ButtonTag));
    GroupsTouchSelectable(p);
    RunChainMembers(all);
    forall ev | ev in RunChain(all).events
      ensures (ev.Click? || ev.ScrollIntoView?) && Selectable(ev.target)
    {
      var i :| 0 <= i < |all| && ev in all[i].events;
      assert TouchesSelectable(all[i]);
    }
    if RunChain(all).result.Hit? {
      var k :| 0 <= k < |all| && all[k].result == RunChain(all).result
        && forall ev :: ev in all[k].events ==> ev in RunChain(all).events;
      assert TouchesSelectable(all[k]);
    }
  }


  // ----- reading the page -----

  /**
   * A `safe_find` whose element's text, once stripped, is the value when non-blank; a
   * fault `safe_find` lets through aborts the chain.
   */
  function TextProbe(p: Page, sel: Selector): Probe<string> {
    match SafeFind(p, sel)
    case Err(f) => Abort(f)
    case Ok(None) => Miss
    case Ok(Some(e)) => if Strip(e.text) == [] then Miss else Hit(Strip(e.text))
  }

  function TextProbes(p: Page, selectors: seq<Selector>): (ps: seq<Probe<string>>)
    ensures |ps| == |selectors|
  {
    seq(|selectors|, i requires 0 <= i < |selectors| => TextProbe(p, selectors[i]))
  }

  /** The first of `selectors` whose element has non-blank text, in order. */
  method SearchTexts(d: Driver, selectors: seq<Selector>) returns (pr: Probe<string>)
    ensures pr == FirstHit(TextProbes(d.page, selectors))
  {
    ghost var ps := TextProbes(d.page, selectors);
    var i := 0;
    while i < |selectors|
      invariant 0 <= i <= |selectors|
      invariant forall j :: 0 <= j < i ==> ps[j].Miss?
    {
      var found := SafeFind(d.page, selectors[i]);
      if found.Err? {
        FirstHitAt(ps, i);
        return Abort(found.error);
      }
      if found.value.Some? && Strip(found.value.value.text) != [] {
        FirstHitAt(ps, i);
        return Hit(Strip(found.value.value.text));
      }
      i := i + 1;
    }
    FirstHitMiss(ps);
    pr := Miss;
  }

  // ----- seller -----

  /** The dedicated seller element first, then the other places a seller name appears. */
  const SellerSelectors: seq<Selector> := [
    Css("div.supplier-supplier span.supplier-productSellerName"),
    Css("span.seller-name"),
    Css("div.pdp-seller-info span.supplier-name"),
    Css("div.pdp-seller-info a.seller-link"),
    Css("div.item-seller-details span")]

  /** Elements whose own text mentions "sold by" or "seller:", matched without regard to case. */
  const SellerLabels: seq<Selector> := [
    XPath("//span[contains(translate(text(), 'ABCDEFGHIJKLMNOPQRSTUVWXYZ', 'abcdefghijklmnopqrstuvwxyz'), 'sold by')]/following-sibling::*"),
    XPath("//div[contains(translate(text(), 'ABCDEFGHIJKLMNOPQRSTUVWXYZ', 'abcdefghijklmnopqrstuvwxyz'), 'sold by')]/span"),
    XPath("//div[contains(translate(text(), 'ABCDEFGHIJKLMNOPQRSTUVWXYZ', 'abcdefghijklmnopqrstuvwxyz'), 'sold by')]"),
    XPath("//*[contains(translate(text(), 'ABCDEFGHIJKLMNOPQRSTUVWXYZ', 'abcdefghijklmnopqrstuvwxyz'), 'seller:')]")]

  /** One listed element: its stripped, non-blank text read as a seller label. */
  function LabelProbe(e: Element): Probe<string> {
    var text := Strip(e.text);
    if text == [] then Miss
    else match SellerFromLabel(text)
      case None => Miss
      case Some(name) => Hit(name)
  }

  function LabelGroup(l: Listing): seq<Probe<string>> {
    match l
    case ListRaised(f) => [Abort(f)]
    case Listed(es) => seq(|es|, k requires 0 <= k < |es| => LabelProbe(es[k]))
  }

  function LabelGroups(p: Page, selectors: seq<Selector>): (groups: seq<seq<Probe<string>>>)
    ensures |groups| == |selectors|
  {
    seq(|selectors|, i requires 0 <= i < |selectors| => LabelGroup(LocateAll(p, selectors[i])))
  }

  /** Every candidate `find_seller_name` tries, in order. */
  function SellerProbes(p: Page): seq<Probe<string>> {
    TextProbes(p, SellerSelectors) + Flatten(LabelGroups(p, SellerLabels))
  }

  /** `find_seller_name`: the first candidate that yields a name; any fault gives `None`. */
  function FindSellerNameSpec(p: Page): Option<string> {
    HitValue(FirstHit(SellerProbes(p)))
  }

  /** The elements listed by one label selector, in order. */
  method SearchLabelGroup(es: seq<Element>) returns (pr: Probe<string>)
    ensures pr == FirstHit(LabelGroup(Listed(es)))
  {
    ghost var ps := LabelGroup(Listed(es));
    var j := 0;
    while j < |es|
      invariant 0 <= j <= |es| && |ps| == |es|
      invariant forall k :: 0 <= k < j ==> ps[k].Miss?
    {
      var probe := LabelProbe(es[j]);
      assert ps[j] == probe;
      if probe.Hit? {
        FirstHitAt(ps, j);
        return probe;
      }
      j := j + 1;
    }
    FirstHitMiss(ps);
    pr := Miss;
  }

  /** The elements listed by the label selectors, in order. */
  method SearchLabels(d: Driver, selectors: seq<Selector>) returns (pr: Probe<string>)
    ensures pr == FirstHit(Flatten(LabelGroups(d.page, selectors)))
  {
    ghost var groups := LabelGroups(d.page, selectors);
    var i := 0;
    while i < |selectors|
      invariant 0 <= i <= |selectors|
      invariant AllMiss(Flatten(groups[..i]))
    {
      var listing := LocateAll(d.page, selectors[i]);
      if listing.ListRaised? {
        FirstHitInGroup(groups, i, 0);
        return Abort(listing.fault);
      }
      var found := SearchLabelGroup(listing.elements);
      if !found.Miss? {
        FirstHitGroupDecides(groups, i);
        return found;
      }
      FirstHitMiss(groups[i]);
      FirstHitGroupDone(groups, i);
      i := i + 1;
    }
    FirstHitGroupsMiss(groups);
    pr := Miss;
  }

  method FindSellerName(d: Driver) returns (name: Option<string>)
    ensures name == FindSellerNameSpec(d.page)
  {
    FirstHitAppend(TextProbes(d.page, SellerSelectors), Flatten(LabelGroups(d.page, SellerLabels)));
    var pr := SearchTexts(d, SellerSelectors);
    if pr.Miss? {
      pr := SearchLabels(d, SellerLabels);
    }
    name := HitValue(pr);
  }

  /** A non-blank dedicated seller element decides the name, whatever else the page holds. */
  lemma {:induction false} SellerPrimaryWins(p: Page, e: Element)
    requires Locate(p, SellerSelectors[0]) == Found(e) && Strip(e.text) != []
    ensures FindSellerNameSpec(p) == Some(Strip(e.text))
  {
    var ps := SellerProbes(p);
    assert ps[0] == TextProbe(p, SellerSelectors[0]);
    FirstHitAt(ps, 0);
  }

  /**
   * `find_seller_name` gives up only when every candidate that would have named a seller
   * comes after a lookup that raised.
   */
  lemma {:induction false} SellerNotFound(p: Page)
    ensures FindSellerNameSpec(p).None? <==>
      forall k :: 0 <= k < |SellerProbes(p)| && SellerProbes(p)[k].Hit? ==>
        exists j :: 0 <= j < k && SellerProbes(p)[j].Abort?
  {
    FirstHitFails(SellerProbes(p));
  }

  /**
   * A seller name is either the stripped, non-blank text of an element one of the seller
   * selectors found, or what a "sold by"/"seller:" label listed on the page yields.
   */
  lemma {:induction false} SellerNameSources(p: Page, name: string)
    requires FindSellerNameSpec(p) == Some(name)
    ensures
      || (exists i :: 0 <= i < |SellerSelectors| && Locate(p, SellerSelectors[i]).Found?
            && name == Strip(Locate(p, SellerSelectors[i]).element.text) && name != [])
      || (exists i, e :: 0 <= i < |SellerLabels| && LocateAll(p, SellerLabels[i]).Listed?
            && e in LocateAll(p, SellerLabels[i]).elements
            && Strip(e.text) != [] && SellerFromLabel(Strip(e.text)) == Some(name))
  {
    var texts := TextProbes(p, SellerSelectors);
    var groups := LabelGroups(p, SellerLabels);
    var ps := SellerProbes(p);
    var k := FirstIndex(ps);
    assert k < |ps| && ps[k] == Hit(name);
    if k < |texts| {
      assert ps[k] == TextProbe(p, SellerSelectors[k]);
    } else {
      assert ps[k] == Flatten(groups)[k - |texts|];
      FlattenMembers(groups);
      assert Flatten(groups)[k - |texts|] in Flatten(groups);
      var i :| 0 <= i < |groups| && Hit(name) in groups[i];
      var l := LocateAll(p, SellerLabels[i]);
      var m :| 0 <= m < |l.elements| && groups[i][m] == Hit(name);
      assert LabelProbe(l.elements[m]) == Hit(name);
    }
  }

  // ----- delivery -----

  const DeliverySelectors: seq<Selector> := [
    Css("div.pincode-serviceability-message"),
    Css("div.pdp-pincode-info div.pincode-message span.pincode-details"),
    Css("div.pdp-pincode-info span.pincode-message"),
    Css("span.pincode-details"),
    Css("div.delivery-message span"),
    Css("li.delivery-option h4")]

  /** The raw length a page line must stay under to be taken as the estimate. */
  const LineLimit := 150

  /** A page line the fallback accepts: it mentions "get it by" once stripped and lower-cased, and is shorter than the limit. */
  predicate Suitable(line: string) {
    Contains(Lower(Strip(line)), Marker) && |line| < LineLimit
  }

  /** `info` is the clean-up of the first suitable line of `lines`; no earlier line is suitable. */
  predicate FirstSuitable(lines: seq<string>, info: string) {
    exists m ::
      && 0 <= m < |lines| && Suitable(lines[m]) && info == CleanBodyLine(lines[m])
      && forall j :: 0 <= j < m ==> !Suitable(lines[j])
  }

  function LineProbe(line: string): Probe<string> {
    if Suitable(line) then Hit(CleanBodyLine(line)) else Miss
  }

  /** The fallback over the page text; a failing body lookup gives `None`. */
  function BodyFallback(p: Page): Option<string> {
    match FindElement(p, BodyTag)
    case Err(_) => None
    case Ok(body) => HitValue(FirstHit(Probes(SplitLines(body.text), LineProbe)))
  }

  /**
   * `get_delivery_info`: the first message element with non-blank text, cleaned; when
   * none is found, or a lookup raises, the first suitable line of the page.
   */
  function GetDeliveryInfoSpec(p: Page): Option<string> {
    match FirstHit(TextProbes(p, DeliverySelectors))
    case Hit(text) => Some(CleanMessage(text))
    case _ => BodyFallback(p)
  }

  method GetDeliveryInfo(d: Driver) returns (r: Option<string>)
    ensures r == GetDeliveryInfoSpec(d.page)
  {
    var pr := SearchTexts(d, DeliverySelectors);
    if pr.Hit? {
      return Some(CleanMessage(pr.value));
    }
    var body := FindElement(d.page, BodyTag);
    if body.Err? {
      return None;
    }
    r := ScanFirst(SplitLines(body.value.text), LineProbe);
  }

  /** A delivery estimate never keeps the " - " separator. */
  lemma {:induction false} DeliveryHasNoDash(p: Page)
    ensures GetDeliveryInfoSpec(p).Some? ==> !Contains(GetDeliveryInfoSpec(p).value, Dash)
  {
    var body := FindElement(p, BodyTag);
    if FirstHit(TextProbes(p, DeliverySelectors)).Hit? || body.Err? {
    } else {
      var ps := Probes(SplitLines(body.value.text), LineProbe);
      var k := FirstIndex(ps);
      if k < |ps| {
      }
    }
  }

  /** `safe_find` on `sel` gives no element, or one whose text is blank: the search moves on. */
  predicate Unusable(p: Page, sel: Selector) {
    SafeFind(p, sel).Ok? && (SafeFind(p, sel).value.None? || Strip(SafeFind(p, sel).value.value.text) == [])
  }

  /**
   * The delivery selectors are tried in order and the first with non-blank text decides,
   * cleaned of everything up to the first "get it by" and of what follows " - ".
   */
  lemma {:induction false} DeliveryFirstMessage(p: Page, i: nat)
    requires i < |DeliverySelectors| && Locate(p, DeliverySelectors[i]).Found?
    requires Strip(Locate(p, DeliverySelectors[i]).element.text) != []
    requires forall j :: 0 <= j < i ==> Unusable(p, DeliverySelectors[j])
    ensures GetDeliveryInfoSpec(p) == Some(CleanMessage(Strip(Locate(p, DeliverySelectors[i]).element.text)))
  {
    var ps := TextProbes(p, DeliverySelectors);
    forall j | 0 <= j < i
      ensures ps[j].Miss?
    {
      assert ps[j] == TextProbe(p, DeliverySelectors[j]);
    }
    assert ps[i] == TextProbe(p, DeliverySelectors[i]);
    FirstHitAt(ps, i);
  }

  /**
   * When every selector before the `i`-th gives nothing usable and the `i`-th lookup
   * raises, or there is no `i`-th selector, the estimate comes from the page text.
   */
  lemma {:induction false} DeliveryFallsBack(p: Page, i: nat)
    requires i <= |DeliverySelectors|
    requires i < |DeliverySelectors| ==> SafeFind(p, DeliverySelectors[i]).Err?
    requires forall j :: 0 <= j < i ==> Unusable(p, DeliverySelectors[j])
    ensures GetDeliveryInfoSpec(p) == BodyFallback(p)
  {
    var ps := TextProbes(p, DeliverySelectors);
    forall j | 0 <= j < i
      ensures ps[j].Miss?
    {
      assert ps[j] == TextProbe(p, DeliverySelectors[j]);
    }
    if i < |ps| {
      assert ps[i] == TextProbe(p, DeliverySelectors[i]);
      FirstHitAt(ps, i);
    } else {
      FirstHitMiss(ps);
    }
  }

  /**
   * The page-text fallback: nothing without a body element; otherwise the first suitable
   * line, cleaned, and nothing exactly when no line is suitable.
   */
  lemma {:induction false} BodyFallbackFirst(p: Page)
    ensures !Locate(p, BodyTag).Found? ==> BodyFallback(p).None?
    ensures Locate(p, BodyTag).Found? ==>
      var lines := SplitLines(Locate(p, BodyTag).element.text);
      && (BodyFallback(p).None? <==> forall k :: 0 <= k < |lines| ==> !Suitable(lines[k]))
      && (BodyFallback(p).Some? ==> FirstSuitable(lines, BodyFallback(p).value))
  {
    if Locate(p, BodyTag).Found? {
      var lines := SplitLines(Locate(p, BodyTag).element.text);
      var ps := Probes(lines, LineProbe);
      FirstHitMiss(ps);
      assert forall k :: 0 <= k < |lines| ==> ps[k] == LineProbe(lines[k]);
      if BodyFallback(p).Some? {
        BodyLineSource(Locate(p, BodyTag).element.text, BodyFallback(p).value);
      }
    }
  }

  /**
   * A delivery estimate comes either from the first message element that gives anything
   * usable (its stripped, non-blank text, cleaned) or from the first suitable line of the
   * page text, a line without line breaks.
   */
  lemma {:induction false} DeliverySources(p: Page, info: string)
    requires GetDeliveryInfoSpec(p) == Some(info)
    ensures
      || (exists i :: 0 <= i < |DeliverySelectors| && Locate(p, DeliverySelectors[i]).Found?
            && Strip(Locate(p, DeliverySelectors[i]).element.text) != []
            && info == CleanMessage(Strip(Locate(p, DeliverySelectors[i]).element.text))
            && forall j :: 0 <= j < i ==> Unusable(p, DeliverySelectors[j]))
      || (Locate(p, BodyTag).Found? && FirstSuitable(SplitLines(Locate(p, BodyTag).element.text), info)
          && forall l, j :: l in SplitLines(Locate(p, BodyTag).element.text) && 0 <= j < |l| ==> !IsLineBreak(l[j]))
  {
    var texts := TextProbes(p, DeliverySelectors);
    var k := FirstIndex(texts);
    if k < |texts| && texts[k].Hit? {
      assert texts[k] == TextProbe(p, DeliverySelectors[k]);
      forall j | 0 <= j < k
        ensures Unusable(p, DeliverySelectors[j])
      {
        assert texts[j] == TextProbe(p, DeliverySelectors[j]);
      }
    } else {
      var body := Locate(p, BodyTag).element;
      BodyLineSource(body.text, info);
    }
  }

  /** The line the body fallback settles on: the first suitable one. */
  lemma {:induction false} BodyLineSource(text: string, info: string)
    requires HitValue(FirstHit(Probes(SplitLines(text), LineProbe))) == Some(info)
    ensures FirstSuitable(SplitLines(text), info)
    ensures forall l, j :: l in SplitLines(text) && 0 <= j < |l| ==> !IsLineBreak(l[j])
  {
    var lines := SplitLines(text);
    var ps := Probes(lines, LineProbe);
    FirstHitValue(ps, info);
    var m := FirstIndex(ps);
    assert ps[m] == LineProbe(lines[m]);
    forall j | 0 <= j < m
      ensures !Suitable(lines[j])
    {
      assert ps[j].Miss? && ps[j] == LineProbe(lines[j]);
    }
    SplitLinesSound(text);
  }

  // ----- one URL -----

  // The verifier cannot look inside a string literal much longer than 40 characters,
  // so the two long notes are written clause by clause.
  const PincodeNote := "Pincode input not found " + "or not interactable; "
  const SizeNote := "No size clicked " + "(may be single size, " + "all sizes unavailable, "
    + "or selectors need tuning); "
  const SellerNote := "Seller not found; "
  const DeliveryNote := "Delivery info not found; "
  const EmptyNote := "Page loaded, but no relevant data (seller/delivery) found; "
  const NoDataNote := "No seller or delivery data and no explicit redirect/error; "
  const RedirectNote := "Page redirected to a 404 or error page."

  /** The address the browser ended up on names an error page. */
  predicate IsErrorAddress(url: string) {
    Contains(url, "404") || Contains(url, "error")
  }

  /** The status an exception escaping the page work leaves in the row. */
  function FaultStatus(f: Fault): (s: Status)
    ensures s != Success
    ensures s == RequestTimeout <==> f.kind == Timeout
    ensures s == NotFound <==> f.kind == NoSuchElement
    ensures s == BadRequest <==> f.kind == ClickIntercepted
    ensures s == ServerError <==> f.kind == DriverFault || f.kind == OtherFault
  {
    match f.kind
    case Timeout => RequestTimeout
    case NoSuchElement => NotFound
    case ClickIntercepted => BadRequest
    case DriverFault => ServerError
    case OtherFault => ServerError
  }

  /** The note that replaces everything noted so far when an exception escapes. */
  function FaultNote(f: Fault): string {
    FaultDetail(f) + "; "
  }

  function FaultDetail(f: Fault): string {
    match f.kind
    case Timeout => "Page load timeout (took too long to load body element)"
    case NoSuchElement => "Element not found error during scraping: " + f.message
    case ClickIntercepted => "Click intercepted, likely by an overlay: " + f.message
    case DriverFault => "WebDriver communication error or browser crash: " + f.message
    case OtherFault => "Unexpected error during scraping: " + f.message
  }

  /** Every fault note but the timeout's quotes the exception's message. */
  lemma {:induction false} FaultNoteQuotesMessage(f: Fault)
    ensures f.kind != Timeout ==> Contains(FaultNote(f), f.message)
  {
    if f.kind != Timeout {
      var detail := FaultDetail(f);
      var at := |detail| - |f.message|;
      assert FaultNote(f)[at..at + |f.message|] == f.message;
      OccursContains(FaultNote(f), f.message, at);
    }
  }

  /** How far the page work for one URL got. */
  datatype Visit =
    | Redirected
    | Failed(fault: Fault)
    | Loaded(pincodeEntered: bool, sizeClicked: bool, seller: Option<string>, delivery: Option<string>)

  /**
   * The page work of `scrape_url`: navigate, wait for the body, read the address and stop
   * at an error page, otherwise work the page. The first exception that escapes ends it.
   */
  function VisitSpec(p: Page, url: string, pincode: string): Acted<Visit> {
    var nav := [Navigate(url)];
    if p.navigation.Some? then Acted(Failed(p.navigation.value), nav)
    else if WaitPresent(p, BodyTag).Err? then Acted(Failed(WaitPresent(p, BodyTag).error), nav)
    else if p.currentUrl.Err? then Acted(Failed(p.currentUrl.error), nav)
    else if IsErrorAddress(p.currentUrl.value) then Acted(Redirected, nav)
    else
      var work := WorkSpec(p, pincode);
      Acted(work.result, nav + work.events)
  }

  /**
   * Working a loaded product page: close pop-ups, enter the pincode, select a size, then
   * read the seller and the delivery estimate.
   */
  function WorkSpec(p: Page, pincode: string): Acted<Visit> {
    var entered := EnterPincodeSpec(p, pincode);
    var before := HandlePopupsSpec(p).events + entered.events;
    match entered.result
    case Err(f) => Acted(Failed(f), before)
    case Ok(pincodeEntered) =>
      var size := ClickFirstSizeSpec(p);
      match size.result
      case Err(f) => Acted(Failed(f), before + size.events)
      case Ok(sizeClicked) =>
        Acted(Loaded(pincodeEntered, sizeClicked, FindSellerNameSpec(p), GetDeliveryInfoSpec(p)),
              before + size.events)
  }

  /** The notes a loaded page collects, fragment by fragment. */
  function LoadedNotes(pincodeEntered: bool, sizeClicked: bool, seller: Option<string>, delivery: Option<string>): string {
    Fragment(pincodeEntered, PincodeNote) + Fragment(sizeClicked, SizeNote)
    + Fragment(Truthy(seller), SellerNote) + Fragment(Truthy(delivery), DeliveryNote)
  }

  /** The note a step contributes: nothing when it succeeded. */
  function Fragment(succeeded: bool, note: string): string {
    if succeeded then [] else note
  }

  /**
   * The row for a visit: "200" exactly when a seller or a delivery estimate was read;
   * a page without either stays "404" with its notes explained; an error page keeps the
   * redirect note; an escaping exception sets its status and replaces the notes.
   */
  function RecordOf(urlNo: nat, url: string, v: Visit): Record {
    var blank := Record(urlNo, url, [], [], [], NotFound, []);
    match v
    case Redirected => blank.(notes := RedirectNote)
    case Failed(f) => blank.(status := FaultStatus(f), notes := FaultNote(f))
    case Loaded(pincodeEntered, sizeClicked, seller, delivery) =>
      var notes := LoadedNotes(pincodeEntered, sizeClicked, seller, delivery);
      var found := Truthy(seller) || Truthy(delivery);
      blank.(sellerNames := if Truthy(seller) then seller.value else [],
             delivery := if Truthy(delivery) then delivery.value else [],
             status := if found then Success else NotFound,
             notes := if found then notes else NoDataNote + notes)
  }

  /** `scrape_url`: the row, or the exception the closing `driver.current_url` read raises. */
  function ScrapeUrlSpec(p: Page, urlNo: nat, url: string, pincode: string): Acted<Result<Record, Fault>> {
    var v := VisitSpec(p, url, pincode);
    Acted(if p.finishFault.Some? then Err(p.finishFault.value) else Ok(RecordOf(urlNo, url, v.result)), v.events)
  }

  /** The notes for a missed pincode, seller or estimate hold no digit 4. */
  lemma {:induction false} NoteCharacters()
    ensures '4' !in PincodeNote && '4' !in SellerNote && '4' !in DeliveryNote
  {
    assert '4' !in "Pincode input not found ";
    assert '4' !in "or not interactable; ";
  }

  /** Nor does the note for an unclicked size. */
  lemma {:induction false} SizeNoteCharacters()
    ensures '4' !in SizeNote
  {
    assert '4' !in "No size clicked ";
    assert '4' !in "(may be single size, ";
    assert '4' !in "all sizes unavailable, ";
    assert '4' !in "or selectors need tuning); ";
  }

  /** None of the note fragments mentions "404". */
  lemma {:induction false} NotesNeverSay404(pincodeEntered: bool, sizeClicked: bool, seller: Option<string>, delivery: Option<string>)
    ensures !Contains(LoadedNotes(pincodeEntered, sizeClicked, seller, delivery), "404")
  {
    NoteCharacters();
    SizeNoteCharacters();
    MissingFirstChar(LoadedNotes(pincodeEntered, sizeClicked, seller, delivery), "404");
  }

  /**
   * The classification of a loaded page, updating the row as `scrape_url` does: one
   * note per missing piece, in order, then the status, the note for an empty page and the
   * explanation prefix.
   */
  method Classify(data: Record, pincodeEntered: bool, sizeClicked: bool, seller: Option<string>, delivery: Option<string>)
    returns (row: Record)
    requires data == Record(data.urlNo, data.url, [], [], [], NotFound, [])
    ensures row == RecordOf(data.urlNo, data.url, Loaded(pincodeEntered, sizeClicked, seller, delivery))
  {
    row := data;
    if !pincodeEntered {
      row := row.(notes := row.notes + PincodeNote);
    }
    ghost var notes := Fragment(pincodeEntered, PincodeNote);
    assert row.notes == notes;
    if !sizeClicked {
      row := row.(notes := row.notes + SizeNote);
    }
    notes := notes + Fragment(sizeClicked, SizeNote);
    assert row.notes == notes;
    if Truthy(seller) {
      row := row.(sellerNames := seller.value);
    } else {
      row := row.(notes := row.notes + SellerNote);
    }
    notes := notes + Fragment(Truthy(seller), SellerNote);
    assert row.notes == notes;
    if Truthy(delivery) {
      row := row.(delivery := delivery.value);
    } else {
      row := row.(notes := row.notes + DeliveryNote);
    }
    notes := notes + Fragment(Truthy(delivery), DeliveryNote);
    assert row.notes == notes;
    if Truthy(seller) || Truthy(delivery) {
      row := row.(status := Success);
    } else {
      assert row.notes == LoadedNotes(pincodeEntered, sizeClicked, seller, delivery);
      assert |row.notes| >= |SellerNote| > 0;
      if row.notes == [] {
        row := row.(notes := EmptyNote);
      }
      NotesNeverSay404(pincodeEntered, sizeClicked, seller, delivery);
      if row.status == NotFound && !Contains(row.notes, "404") {
        row := row.(notes := NoDataNote + row.notes);
      }
    }
  }

  /** Navigating to `url` and working the page unless it failed to load or is an error page. */
  method VisitPage(d: Driver, url: string, pincode: string) returns (v: Visit)
    modifies d
    ensures v == VisitSpec(d.page, url, pincode).result
    ensures d.events == old(d.events) + VisitSpec(d.page, url, pincode).events
  {
    var fault := d.Get(url);
    if fault.Some? {
      return Failed(fault.value);
    }
    var body := WaitPresent(d.page, BodyTag);
    if body.Err? {
      return Failed(body.error);
    }
    var address := d.page.currentUrl;
    if address.Err? {
      return Failed(address.error);
    }
    if IsErrorAddress(address.value) {
      return Redirected;
    }
    v := WorkPage(d, pincode);
    AppendAssoc(old(d.events), [Navigate(url)], WorkSpec(d.page, pincode).events);
  }

  method WorkPage(d: Driver, pincode: string) returns (v: Visit)
    modifies d
    ensures v == WorkSpec(d.page, pincode).result
    ensures d.events == old(d.events) + WorkSpec(d.page, pincode).events
  {
    ghost var popups := HandlePopupsSpec(d.page).events;
    ghost var entering := EnterPincodeSpec(d.page, pincode).events;
    var closed := HandlePopups(d);
    var entered := EnterPincode(d, pincode);
    AppendAssoc(old(d.events), popups, entering);
    if entered.Err? {
      return Failed(entered.error);
    }
    var clicked := ClickFirstSize(d);
    AppendAssoc(old(d.events), popups + entering, ClickFirstSizeSpec(d.page).events);
    if clicked.Err? {
      return Failed(clicked.error);
    }
    var seller := FindSellerName(d);
    var delivery := GetDeliveryInfo(d);
    v := Loaded(entered.value, clicked.value, seller, delivery);
  }

  method ScrapeUrl(d: Driver, urlNo: nat, url: string, pincode: string) returns (r: Result<Record, Fault>)
    modifies d
    ensures r == ScrapeUrlSpec(d.page, urlNo, url, pincode).result
    ensures d.events == old(d.events) + ScrapeUrlSpec(d.page, urlNo, url, pincode).events
  {
    var data := Record(urlNo, url, [], [], [], NotFound, []);
    var v := VisitPage(d, url, pincode);
    if v.Redirected? {
      data := data.(status := NotFound, notes := RedirectNote);
    } else if v.Failed? {
      data := data.(status := FaultStatus(v.fault), notes := FaultNote(v.fault));
    } else {
      data := Classify(data, v.pincodeEntered, v.sizeClicked, v.seller, v.delivery);
    }
    if d.page.finishFault.Some? {
      return Err(d.page.finishFault.value);
    }
    r := Ok(data);
  }

  /**
   * An error page stops `scrape_url` right after navigating: no pop-up, pincode, size or
   * extraction step touches the page, and the row reports "404" with the redirect note.
   */
  lemma {:induction false} ErrorPageShortCircuits(p: Page, urlNo: nat, url: string, pincode: string)
    requires p.navigation.None? && WaitPresent(p, BodyTag).Ok? && p.currentUrl.Ok? && IsErrorAddress(p.currentUrl.value)
    ensures VisitSpec(p, url, pincode).events == [Navigate(url)]
    ensures RecordOf(urlNo, url, VisitSpec(p, url, pincode).result).status.Code() == "404"
    ensures RecordOf(urlNo, url, VisitSpec(p, url, pincode).result).notes == RedirectNote
  {
  }

  /** Every row keeps its number and address and leaves the seller ids empty. */
  lemma {:induction false} RowKeepsIdentity(urlNo: nat, url: string, v: Visit)
    ensures RecordOf(urlNo, url, v).urlNo == urlNo && RecordOf(urlNo, url, v).url == url
    ensures RecordOf(urlNo, url, v).sellerIds == []
  {
  }

  /** A row reports "200" exactly when it carries a seller name or a delivery estimate. */
  lemma {:induction false} RowSuccessIffData(urlNo: nat, url: string, v: Visit)
    ensures RecordOf(urlNo, url, v).status.Code() == "200" <==>
      RecordOf(urlNo, url, v).sellerNames != [] || RecordOf(urlNo, url, v).delivery != []
  {
  }

  /**
   * A loaded page without a seller name or a delivery estimate reports "404"; its notes
   * open with the explanation and name both missing pieces.
   */
  lemma {:induction false} NoDataRowExplained(urlNo: nat, url: string, v: Visit)
    requires v.Loaded? && RecordOf(urlNo, url, v).status != Success
    ensures RecordOf(urlNo, url, v).status.Code() == "404"
    ensures StartsWith(RecordOf(urlNo, url, v).notes, NoDataNote)
    ensures Contains(RecordOf(urlNo, url, v).notes, SellerNote)
    ensures Contains(RecordOf(urlNo, url, v).notes, DeliveryNote)
  {
    var notes := RecordOf(urlNo, url, v).notes;
    var middle := Fragment(v.pincodeEntered, PincodeNote) + Fragment(v.sizeClicked, SizeNote);
    assert Fragment(Truthy(v.seller), SellerNote) == SellerNote;
    assert Fragment(Truthy(v.delivery), DeliveryNote) == DeliveryNote;
    assert notes == NoDataNote + (middle + SellerNote + DeliveryNote);
    PartsOfNotes(NoDataNote, middle, SellerNote, DeliveryNote);
  }

  /** Notes laid end to end start with the first part and contain the last two. */
  lemma {:induction false} PartsOfNotes(head: string, middle: string, x: string, y: string)
    ensures StartsWith(head + (middle + x + y), head)
    ensures Contains(head + (middle + x + y), x)
    ensures Contains(head + (middle + x + y), y)
  {
    var notes := head + (middle + x + y);
    var k := |head| + |middle|;
    assert notes[..|head|] == head;
    assert notes[k..k + |x|] == x;
    OccursContains(notes, x, k);
    assert notes[k + |x|..] == y;
    OccursContains(notes, y, k + |x|);
  }

  /**
   * A raising read of the address after the body appeared ends `scrape_url` right after
   * navigating, with the status and note of that fault: "500" and the WebDriver note when
   * it is a WebDriver error.
   */
  lemma {:induction false} AddressReadFails(p: Page, urlNo: nat, url: string, pincode: string)
    requires p.navigation.None? && WaitPresent(p, BodyTag).Ok? && p.currentUrl.Err?
    ensures VisitSpec(p, url, pincode).events == [Navigate(url)]
    ensures RecordOf(urlNo, url, VisitSpec(p, url, pincode).result).status == FaultStatus(p.currentUrl.error)
    ensures RecordOf(urlNo, url, VisitSpec(p, url, pincode).result).notes == FaultNote(p.currentUrl.error)
    ensures p.currentUrl.error.kind == DriverFault ==>
      RecordOf(urlNo, url, VisitSpec(p, url, pincode).result).status.Code() == "500"
  {
  }

  /**
   * A page whose body never appears (absent, or lookups raising "no such element") times
   * out after navigating: the row reports "408".
   */
  lemma {:induction false} MissingBodyTimesOut(p: Page, urlNo: nat, url: string, pincode: string)
    requires p.navigation.None?
    requires Locate(p, BodyTag).Absent? || (Locate(p, BodyTag).Raised? && Locate(p, BodyTag).fault.kind == NoSuchElement)
    ensures VisitSpec(p, url, pincode).events == [Navigate(url)]
    ensures RecordOf(urlNo, url, VisitSpec(p, url, pincode).result).status.Code() == "408"
  {
  }
}
