/**
 * The single-page scraper: one product URL, worked once. It enters the pincode, selects a
 * size, reads the seller and the delivery estimate and returns one row, quitting the
 * browser however the work ends. Its lookups differ from the batch scraper's in several
 * places: the pincode input must sit inside a form, buttons are clicked without waiting,
 * the seller is read in three stages, and the delivery text is cleaned only at its start.
 */
module ScraperOne {
  import opened Base
  import opened Text
  import opened Browser
  import opened Chain
  import opened Normalise
  import opened Records

  /** The exception a plain `click()` raises when the page does not take the click. */
  function ClickFault(outcome: ClickOutcome): Fault {
    if outcome == Intercepted then Fault(ClickIntercepted, "") else Fault(OtherFault, "")
  }

  // ----- pincode -----

  const PincodeInputs: seq<Selector> := [
    Css("input[placeholder*='pincode']"),
    Css("input[placeholder*='PIN']"),
    Css("input[name*='pincode']"),
    Css("input[id*='pincode']"),
    Css("input[aria-label*='pincode']")]

  const ConfirmButtons: seq<Selector> := [
    XPath("//button[contains(., 'Check')]"),
    XPath("//button[contains(., 'Apply')]"),
    XPath("//button[contains(., 'CHECK')]"),
    XPath("//button[contains(., 'Apply Pincode')]")]

  /** One confirm button: a plain click; a lookup or a click that raises aborts the search. */
  function ButtonAttempt(p: Page, sel: Selector): Acted<Probe<()>> {
    match SafeFind(p, sel)
    case Err(f) => Acted(Abort(f), [])
    case Ok(None) => Acted(Miss, [])
    case Ok(Some(b)) =>
      if b.onClick == Clicked then Acted(Hit(()), [Click(b)]) else Acted(Abort(ClickFault(b.onClick)), [Click(b)])
  }

  function ButtonAttempts(p: Page, buttons: seq<Selector>): (attempts: seq<Acted<Probe<()>>>)
    ensures |attempts| == |buttons|
  {
    seq(|buttons|, i requires 0 <= i < |buttons| => ButtonAttempt(p, buttons[i]))
  }

  /**
   * One pincode input. A lookup fault escapes. A found input is cleared and typed into;
   * an input that refuses keys, lies outside a form (the `ancestor::form` lookup raises),
   * or whose button search raises, moves on to the next input. Otherwise the pincode is
   * confirmed by the button clicked or, when there is none, by a typed newline.
   */
  function InputAttempt(p: Page, sel: Selector, pincode: string, confirm: Acted<Probe<()>>): Acted<Probe<()>> {
    match SafeFind(p, sel)
    case Err(f) => Acted(Abort(f), [])
    case Ok(None) => Acted(Miss, [])
    case Ok(Some(input)) =>
      if !input.acceptsKeys then Acted(Miss, [])
      else
        var typed := [Clear(input), SendKeys(input, pincode)];
        if !input.inForm then Acted(Miss, typed)
        else
          match confirm.result
          case Hit(_) => Acted(Hit(()), typed + confirm.events)
          case Abort(_) => Acted(Miss, typed + confirm.events)
          case Miss => Acted(Hit(()), typed + confirm.events + [SendKeys(input, "\n")])
  }

  function InputAttempts(p: Page, inputs: seq<Selector>, pincode: string, confirm: Acted<Probe<()>>): (attempts: seq<Acted<Probe<()>>>)
    ensures |attempts| == |inputs|
  {
    seq(|inputs|, i requires 0 <= i < |inputs| => InputAttempt(p, inputs[i], pincode, confirm))
  }

  /** The button search of `enter_pincode`; it does not depend on the input. */
  function ConfirmSpec(p: Page): Acted<Probe<()>> {
    RunChain(ButtonAttempts(p, ConfirmButtons))
  }

  /** `enter_pincode`: true once an input took the pincode, an error when an input lookup raised. */
  function EnterPincodeSpec(p: Page, pincode: string): Acted<Result<bool, Fault>> {
    Decided(RunChain(InputAttempts(p, PincodeInputs, pincode, ConfirmSpec(p))))
  }

  method TryButton(d: Driver, sel: Selector) returns (outcome: Probe<()>)
    modifies d
    ensures outcome == ButtonAttempt(d.page, sel).result
    ensures d.events == old(d.events) + ButtonAttempt(d.page, sel).events
  {
    var found := SafeFind(d.page, sel);
    if found.Err? {
      return Abort(found.error);
    }
    outcome := Miss;
    if found.value.Some? {
      var clicked := d.Click(found.value.value, false);
      outcome := if clicked == Clicked then Hit(()) else Abort(ClickFault(clicked));
    }
  }

  method ConfirmPincode(d: Driver, buttons: seq<Selector>) returns (outcome: Probe<()>)
    modifies d
    ensures outcome == RunChain(ButtonAttempts(d.page, buttons)).result
    ensures d.events == old(d.events) + RunChain(ButtonAttempts(d.page, buttons)).events
  {
    ghost var attempts := ButtonAttempts(d.page, buttons);
    var i := 0;
    while i < |buttons|
      invariant 0 <= i <= |buttons|
      invariant d.events == old(d.events) + EventsOf(attempts[..i])
      invariant MissesBefore(attempts, i)
    {
      outcome := TryButton(d, buttons[i]);
      RunChainStep(attempts, i, old(d.events));
      if !outcome.Miss? {
        return;
      }
      i := i + 1;
    }
    RunChainDone(attempts);
    outcome := Miss;
  }

  method TryInput(d: Driver, sel: Selector, pincode: string, buttons: seq<Selector>) returns (outcome: Probe<()>)
    modifies d
    ensures outcome == InputAttempt(d.page, sel, pincode, RunChain(ButtonAttempts(d.page, buttons))).result
    ensures d.events == old(d.events) + InputAttempt(d.page, sel, pincode, RunChain(ButtonAttempts(d.page, buttons))).events
  {
    var found := SafeFind(d.page, sel);
    if found.Err? {
      return Abort(found.error);
    }
    outcome := Miss;
    if found.value.Some? {
      var input := found.value.value;
      var cleared := d.Clear(input);
      if cleared {
        var typed := d.SendKeys(input, pincode);
        if input.inForm {
          var confirm := ConfirmPincode(d, buttons);
          if confirm.Hit? {
            outcome := Hit(());
          } else if confirm.Miss? {
            var _ := d.SendKeys(input, "\n");
            outcome := Hit(());
          }
        }
      }
    }
  }

  method SearchInputs(d: Driver, inputs: seq<Selector>, pincode: string, buttons: seq<Selector>) returns (outcome: Probe<()>)
    modifies d
    ensures outcome == RunChain(InputAttempts(d.page, inputs, pincode, RunChain(ButtonAttempts(d.page, buttons)))).result
    ensures d.events == old(d.events) + RunChain(InputAttempts(d.page, inputs, pincode, RunChain(ButtonAttempts(d.page, buttons)))).events
  {
    ghost var attempts := InputAttempts(d.page, inputs, pincode, RunChain(ButtonAttempts(d.page, buttons)));
    var i := 0;
    while i < |inputs|
      invariant 0 <= i <= |inputs|
      invariant d.events == old(d.events) + EventsOf(attempts[..i])
      invariant MissesBefore(attempts, i)
    {
      outcome := TryInput(d, inputs[i], pincode, buttons);
      RunChainStep(attempts, i, old(d.events));
      if !outcome.Miss? {
        return;
      }
      i := i + 1;
    }
    RunChainDone(attempts);
    outcome := Miss;
  }

  method EnterPincode(d: Driver, pincode: string) returns (r: Result<bool, Fault>)
    modifies d
    ensures r == EnterPincodeSpec(d.page, pincode).result
    ensures d.events == old(d.events) + EnterPincodeSpec(d.page, pincode).events
  {
    var outcome := SearchInputs(d, PincodeInputs, pincode, ConfirmButtons);
    r := match outcome
      case Hit(_) => Ok(true)
      case Miss => Ok(false)
      case Abort(f) => Err(f);
  }

  /** An input the pincode can be entered into: found, taking keys, inside a form, with a button search that does not raise. */
  predicate Fillable(p: Page, sel: Selector) {
    && SafeFind(p, sel).Ok? && SafeFind(p, sel).value.Some?
    && SafeFind(p, sel).value.value.acceptsKeys && SafeFind(p, sel).value.value.inForm
    && !ConfirmSpec(p).result.Abort?
  }

  lemma {:induction false} InputAttemptMisses(p: Page, sel: Selector, pincode: string)
    ensures InputAttempt(p, sel, pincode, ConfirmSpec(p)).result.Miss? <==> SafeFind(p, sel).Ok? && !Fillable(p, sel)
    ensures InputAttempt(p, sel, pincode, ConfirmSpec(p)).result.Abort? <==> SafeFind(p, sel).Err?
  {
  }

  /** Each input's attempt misses or aborts according to its own lookup alone. */
  lemma {:induction false} InputAttemptsClassified(p: Page, pincode: string)
    ensures var attempts := InputAttempts(p, PincodeInputs, pincode, ConfirmSpec(p));
      forall i :: 0 <= i < |attempts| ==>
        && (attempts[i].result.Miss? <==> SafeFind(p, PincodeInputs[i]).Ok? && !Fillable(p, PincodeInputs[i]))
        && (attempts[i].result.Abort? <==> SafeFind(p, PincodeInputs[i]).Err?)
  {
    var attempts := InputAttempts(p, PincodeInputs, pincode, ConfirmSpec(p));
    forall i | 0 <= i < |attempts|
      ensures attempts[i].result.Miss? <==> SafeFind(p, PincodeInputs[i]).Ok? && !Fillable(p, PincodeInputs[i])
      ensures attempts[i].result.Abort? <==> SafeFind(p, PincodeInputs[i]).Err?
    {
      InputAttemptMisses(p, PincodeInputs[i], pincode);
    }
  }

  /**
   * `enter_pincode` gives false exactly when every input lookup answers without raising
   * and none of them yields a fillable input.
   */
  lemma {:induction false} PincodeNotEntered(p: Page, pincode: string)
    ensures EnterPincodeSpec(p, pincode).result == Ok(false) <==>
      forall i :: 0 <= i < |PincodeInputs| ==> SafeFind(p, PincodeInputs[i]).Ok? && !Fillable(p, PincodeInputs[i])
  {
    var attempts := InputAttempts(p, PincodeInputs, pincode, ConfirmSpec(p));
    InputAttemptsClassified(p, pincode);
    RunChainDecided(attempts);
    if RunChain(attempts).result.Miss? {
      RunChainExhausted(attempts);
    } else {
      var k :| 0 <= k < |attempts| && MissesBefore(attempts, k) && !attempts[k].result.Miss?;
      RunChainHit(attempts, k);
    }
  }

  /**
   * `enter_pincode` raises exactly the fault of the first input lookup that raises,
   * and every input before it answered without being fillable.
   */
  lemma {:induction false} PincodeLookupFault(p: Page, pincode: string)
    ensures EnterPincodeSpec(p, pincode).result.Err? ==>
      exists i :: 0 <= i < |PincodeInputs| && SafeFind(p, PincodeInputs[i]) == Err(EnterPincodeSpec(p, pincode).result.error)
        && forall j :: 0 <= j < i ==> SafeFind(p, PincodeInputs[j]).Ok? && !Fillable(p, PincodeInputs[j])
  {
    var attempts := InputAttempts(p, PincodeInputs, pincode, ConfirmSpec(p));
    RunChainDecided(attempts);
    if RunChain(attempts).result.Abort? {
      var k :| 0 <= k < |attempts| && MissesBefore(attempts, k) && !attempts[k].result.Miss?;
      RunChainHit(attempts, k);
      var fault := RunChain(attempts).result.fault;
      assert EnterPincodeSpec(p, pincode).result == Err(fault);
      assert attempts[k] == InputAttempt(p, PincodeInputs[k], pincode, ConfirmSpec(p));
      assert SafeFind(p, PincodeInputs[k]) == Err(fault);
      forall j | 0 <= j < k
        ensures SafeFind(p, PincodeInputs[j]).Ok? && !Fillable(p, PincodeInputs[j])
      {
        assert attempts[j].result.Miss?;
        InputAttemptMisses(p, PincodeInputs[j], pincode);
      }
    }
  }

  /**
   * The pincode is reported entered only after it was typed into an input inside a form
   * and confirmed, by a button that took the click or by a typed newline.
   */
  lemma {:induction false} PincodeEnteredMeansConfirmed(p: Page, pincode: string)
    ensures EnterPincodeSpec(p, pincode).result == Ok(true) ==>
      exists e: Element :: e.inForm && SendKeys(e, pincode) in EnterPincodeSpec(p, pincode).events
        && (SendKeys(e, "\n") in EnterPincodeSpec(p, pincode).events
            || exists b: Element :: b.onClick == Clicked && Click(b) in EnterPincodeSpec(p, pincode).events)
  {
    var attempts := InputAttempts(p, PincodeInputs, pincode, ConfirmSpec(p));
    RunChainMembers(attempts);
    if RunChain(attempts).result.Hit? {
      var k :| 0 <= k < |attempts| && attempts[k].result == RunChain(attempts).result
        && forall ev :: ev in attempts[k].events ==> ev in RunChain(attempts).events;
      var e := SafeFind(p, PincodeInputs[k]).value.value;
      assert SendKeys(e, pincode) in attempts[k].events;
      var buttons := ButtonAttempts(p, ConfirmButtons);
      RunChainMembers(buttons);
      if ConfirmSpec(p).result.Hit? {
        var m :| 0 <= m < |buttons| && buttons[m].result == ConfirmSpec(p).result
          && forall ev :: ev in buttons[m].events ==> ev in ConfirmSpec(p).events;
        var b := SafeFind(p, ConfirmButtons[m]).value.value;
        assert Click(b) in buttons[m].events;
        assert Click(b) in attempts[k].events;
      } else {
        assert SendKeys(e, "\n") in attempts[k].events;
      }
    }
  }

  // ----- size -----

  const SizeSelectors: seq<Selector> := [
    Css("div.pdp-size-layout .size-buttons button"),
    Css("ul.size-list li button"),
    Css("button.size-buttons"),
    Css("button.size-option"),
    Css("div.size-list button")]

  const ButtonTag := Tag("button")

  /** The button captions the fallback accepts as a size. */
  const SizeLabels: set<string> := {"S", "M", "L", "XL", "XS"}

  predicate Shown(e: Element) {
    e.displayed && e.enabled
  }

  /**
   * One listed size element, clicked only when displayed and enabled. An intercepted click
   * is retried once after scrolling; any other refused click escapes to the function's
   * own handler, which gives up the whole search.
   */
  function SizeAttempt(e: Element): Acted<Probe<()>> {
    if !Shown(e) then Acted(Miss, [])
    else
      match e.onClick
      case Clicked => Acted(Hit(()), [Click(e)])
      case Refused => Acted(Abort(ClickFault(Refused)), [Click(e)])
      case Intercepted =>
        Acted(if e.onClickAfterScroll == Clicked then Hit(()) else Miss, [Click(e), ScrollIntoView(e), Click(e)])
  }

  /** One fallback button, clicked when its caption names a size; a refused click moves on. */
  function LabelledAttempt(b: Element): Acted<Probe<()>> {
    if Upper(Strip(b.text)) in SizeLabels then Acted(if b.onClick == Clicked then Hit(()) else Miss, [Click(b)])
    else Acted(Miss, [])
  }

  function SizeGroup(l: Listing): seq<Acted<Probe<()>>> {
    match l
    case ListRaised(f) => [Acted(Abort(f), [])]
    case Listed(es) => seq(|es|, k requires 0 <= k < |es| => SizeAttempt(es[k]))
  }

  function SizeGroups(p: Page, selectors: seq<Selector>): (groups: seq<seq<Acted<Probe<()>>>>)
    ensures |groups| == |selectors|
  {
    seq(|selectors|, i requires 0 <= i < |selectors| => SizeGroup(LocateAll(p, selectors[i])))
  }

  function LabelledGroup(l: Listing): seq<Acted<Probe<()>>> {
    match l
    case ListRaised(f) => [Acted(Abort(f), [])]
    case Listed(es) => seq(|es|, k requires 0 <= k < |es| => LabelledAttempt(es[k]))
  }

  function SizeChain(p: Page): seq<Acted<Probe<()>>> {
    Flatten(SizeGroups(p, SizeSelectors)) + LabelledGroup(LocateAll(p, ButtonTag))
  }

  /**
   * `click_first_size`: true once a size was clicked; every exception it meets ends the
   * search with false.
   */
  function ClickFirstSizeSpec(p: Page): Acted<bool> {
    var chain := RunChain(SizeChain(p));
    Acted(chain.result.Hit?, chain.events)
  }

  /** One size candidate, as `click_first_size` tries it. */
  method TrySize(d: Driver, e: Element) returns (outcome: Probe<()>)
    modifies d
    ensures outcome == SizeAttempt(e).result
    ensures d.events == old(d.events) + SizeAttempt(e).events
  {
    outcome := Miss;
    if Shown(e) {
      var first := d.Click(e, false);
      if first == Clicked {
        outcome := Hit(());
      } else if first == Refused {
        outcome := Abort(ClickFault(first));
      } else {
        d.ScrollIntoView(e);
        var second := d.Click(e, true);
        if second == Clicked {
          outcome := Hit(());
        }
      }
    }
  }

  /** The elements one size selector lists, tried in order; a failing lookup escapes. */
  method SearchSizeGroup(d: Driver, listing: Listing) returns (outcome: Probe<()>)
    modifies d
    ensures outcome == RunChain(SizeGroup(listing)).result
    ensures d.events == old(d.events) + RunChain(SizeGroup(listing)).events
  {
    ghost var attempts := SizeGroup(listing);
    if listing.ListRaised? {
      return Abort(listing.fault);
    }
    var es := listing.elements;
    var j := 0;
    while j < |es|
      invariant 0 <= j <= |es| && |attempts| == |es|
      invariant d.events == old(d.events) + EventsOf(attempts[..j])
      invariant MissesBefore(attempts, j)
    {
      outcome := TrySize(d, es[j]);
      RunChainStep(attempts, j, old(d.events));
      if !outcome.Miss? {
        return;
      }
      j := j + 1;
    }
    RunChainDone(attempts);
    outcome := Miss;
  }

  /** The elements listed by the size selectors, selector by selector, in order. */
  method SearchSizes(d: Driver, selectors: seq<Selector>) returns (outcome: Probe<()>)
    modifies d
    ensures outcome == RunChain(Flatten(SizeGroups(d.page, selectors))).result
    ensures d.events == old(d.events) + RunChain(Flatten(SizeGroups(d.page, selectors))).events
  {
    ghost var groups := SizeGroups(d.page, selectors);
    var i := 0;
    while i < |selectors|
      invariant 0 <= i <= |selectors|
      invariant d.events == old(d.events) + EventsOf(Flatten(groups[..i]))
      invariant MissesBefore(Flatten(groups[..i]), |Flatten(groups[..i])|)
    {
      var listing := LocateAll(d.page, selectors[i]);
      assert groups[i] == SizeGroup(listing);
      outcome := SearchSizeGroup(d, listing);
      RunChainGroupRun(groups, i, old(d.events));
      if !outcome.Miss? {
        return;
      }
      i := i + 1;
    }
    RunChainGroupsExhausted(groups);
    outcome := Miss;
  }

  /** One `<button>` of the fallback: tried only when its caption names a size. */
  method TryLabelled(d: Driver, b: Element) returns (outcome: Probe<()>)
    modifies d
    ensures outcome == LabelledAttempt(b).result
    ensures d.events == old(d.events) + LabelledAttempt(b).events
  {
    outcome := Miss;
    if Upper(Strip(b.text)) in SizeLabels {
      var clicked := d.Click(b, false);
      if clicked == Clicked {
        outcome := Hit(());
      }
    }
  }

  method SearchLabelled(d: Driver) returns (outcome: Probe<()>)
    modifies d
    ensures outcome == RunChain(LabelledGroup(LocateAll(d.page, ButtonTag))).result
    ensures d.events == old(d.events) + RunChain(LabelledGroup(LocateAll(d.page, ButtonTag))).events
  {
    ghost var attempts := LabelledGroup(LocateAll(d.page, ButtonTag));
    var listing := LocateAll(d.page, ButtonTag);
    if listing.ListRaised? {
      RunChainStep(attempts, 0, old(d.events));
      assert attempts[..1] == attempts;
      return Abort(listing.fault);
    }
    var buttons := listing.elements;
    var j := 0;
    while j < |buttons|
      invariant 0 <= j <= |buttons| && |attempts| == |buttons|
      invariant d.events == old(d.events) + EventsOf(attempts[..j])
      invariant MissesBefore(attempts, j)
    {
      outcome := TryLabelled(d, buttons[j]);
      RunChainStep(attempts, j, old(d.events));
      if !outcome.Miss? {
        return;
      }
      j := j + 1;
    }
    RunChainDone(attempts);
    outcome := Miss;
  }

  method ClickFirstSize(d: Driver) returns (clicked: bool)
    modifies d
    ensures clicked == ClickFirstSizeSpec(d.page).result
    ensures d.events == old(d.events) + ClickFirstSizeSpec(d.page).events
  {
    ghost var listed := Flatten(SizeGroups(d.page, SizeSelectors));
    ghost var labelled := LabelledGroup(LocateAll(d.page, ButtonTag));
    RunChainAppend(listed, labelled);
    var outcome := SearchSizes(d, SizeSelectors);
    if outcome.Miss? {
      outcome := SearchLabelled(d);
      AppendAssoc(old(d.events), RunChain(listed).events, RunChain(labelled).events);
    }
    clicked := outcome.Hit?;
  }

  /**
   * The attempt clicks and scrolls only to elements that are displayed and enabled or
   * captioned with a size, and when it hits it clicked an element that took the click.
   */
  ghost predicate TouchesSizes(a: Acted<Probe<()>>) {
    && (forall ev :: ev in a.events ==>
          (ev.Click? || ev.ScrollIntoView?) && (Shown(ev.target) || Upper(Strip(ev.target.text)) in SizeLabels))
    && (a.result.Hit? ==> exists e :: Click(e) in a.events && (e.onClick == Clicked || e.onClickAfterScroll == Clicked))
  }

  lemma {:induction false} AttemptsTouchSizes(e: Element)
    ensures TouchesSizes(SizeAttempt(e)) && TouchesSizes(LabelledAttempt(e))
  {
    if SizeAttempt(e).result.Hit? {
      assert Click(e) in SizeAttempt(e).events;
    }
    if LabelledAttempt(e).result.Hit? {
      assert Click(e) in LabelledAttempt(e).events;
    }
  }

  lemma {:induction false} ChainTouchesSizes(p: Page)
    ensures forall a :: a in SizeChain(p) ==> TouchesSizes(a)
  {
    var groups := SizeGroups(p, SizeSelectors);
    forall i, a | 0 <= i < |groups| && a in groups[i]
      ensures TouchesSizes(a)
    {
      var l := LocateAll(p, SizeSelectors[i]);
      if l.Listed? {
        var k :| 0 <= k < |l.elements| && a == groups[i][k];
        AttemptsTouchSizes(l.elements[k]);
      }
    }
    FlattenMembers(groups);
    var l := LocateAll(p, ButtonTag);
    if l.Listed? {
      forall a | a in LabelledGroup(l)
        ensures TouchesSizes(a)
      {
        var k :| 0 <= k < |l.elements| && a == LabelledGroup(l)[k];
        AttemptsTouchSizes(l.elements[k]);
      }
    }
  }

  /**
   * Selecting a size only clicks or scrolls to elements that are displayed and enabled,
   * or buttons captioned S, M, L, XL or XS; it reports true only after a click was taken.
   */
  lemma {:induction false} SizeClicksOnlySizes(p: Page)
    ensures forall ev :: ev in ClickFirstSizeSpec(p).events ==>
      (ev.Click? || ev.ScrollIntoView?) && (Shown(ev.target) || Upper(Strip(ev.target.text)) in SizeLabels)
    ensures ClickFirstSizeSpec(p).result ==>
      exists e :: Click(e) in ClickFirstSizeSpec(p).events && (e.onClick == Clicked || e.onClickAfterScroll == Clicked)
  {
    var all := SizeChain(p);
    ChainTouchesSizes(p);
    RunChainMembers(all);
    forall ev | ev in RunChain(all).events
      ensures (ev.Click? || ev.ScrollIntoView?) && (Shown(ev.target) || Upper(Strip(ev.target.text)) in SizeLabels)
    {
      var i :| 0 <= i < |all| && ev in all[i].events;
      assert TouchesSizes(all[i]);
    }
    if RunChain(all).result.Hit? {
      var k :| 0 <= k < |all| && all[k].result == RunChain(all).result
        && forall ev :: ev in all[k].events ==> ev in RunChain(all).events;
      assert TouchesSizes(all[k]);
    }
  }

  /**
   * A displayed, enabled first size element whose click is refused (for a reason other
   * than interception) ends the search at once with false: no other element is tried.
   */
  lemma {:induction false} RefusedClickEndsSearch(p: Page, e: Element, rest: seq<Element>)
    requires LocateAll(p, SizeSelectors[0]) == Listed([e] + rest)
    requires Shown(e) && e.onClick == Refused
    ensures ClickFirstSizeSpec(p) == Acted(false, [Click(e)])
  {
    var groups := SizeGroups(p, SizeSelectors);
    FlattenAppend([groups[0]], groups[1..]);
    assert [groups[0]] + groups[1..] == groups;
    assert Flatten([groups[0]]) == Flatten([groups[0]][..0]) + groups[0];
    var all := SizeChain(p);
    assert all[0] == SizeAttempt(e);
  }

  // ----- seller -----

  /** Any element whose own text mentions "sold by" or "seller", without regard to case. */
  const SellerMention := XPath("//*[contains(translate(text(), 'ABCDEFGHIJKLMNOPQRSTUVWXYZ','abcdefghijklmnopqrstuvwxyz'), 'sold by') or contains(translate(text(), 'ABCDEFGHIJKLMNOPQRSTUVWXYZ','abcdefghijklmnopqrstuvwxyz'), 'seller')]")

  const SellerCandidates: seq<Selector> := [
    Css("div.sellerBlock"),
    Css("div.seller-name"),
    Css("a.seller-link"),
    Css("span.seller-name"),
    Css("div[itemprop='seller']"),
    Css("div.pdp-seller-info")]

  /** Elements whose own text mentions "sold by" or "seller:", without regard to case. */
  const SellerLabels := XPath("//*[contains(translate(text(), 'ABCDEFGHIJKLMNOPQRSTUVWXYZ','abcdefghijklmnopqrstuvwxyz'), 'sold by') or contains(translate(text(), 'ABCDEFGHIJKLMNOPQRSTUVWXYZ','abcdefghijklmnopqrstuvwxyz'), 'seller:')]")

  /** The bound a last-resort text must stay under. */
  const LabelLimit := 200

  /** Stage one: the first mentioning element's whole stripped text; any fault is a miss. */
  function MentionProbe(p: Page): Probe<string> {
    match FindElement(p, SellerMention)
    case Err(_) => Miss
    case Ok(e) => if Strip(e.text) == [] then Miss else Hit(Strip(e.text))
  }

  /** Stage two: a candidate's stripped text; "no such element" moves on, any other fault gives up. */
  function CandidateProbe(p: Page, sel: Selector): Probe<string> {
    match FindElement(p, sel)
    case Err(f) => if f.kind == NoSuchElement then Miss else Abort(f)
    case Ok(e) => if Strip(e.text) == [] then Miss else Hit(Strip(e.text))
  }

  function CandidateProbes(p: Page, selectors: seq<Selector>): (ps: seq<Probe<string>>)
    ensures |ps| == |selectors|
  {
    seq(|selectors|, i requires 0 <= i < |selectors| => CandidateProbe(p, selectors[i]))
  }

  /** Stage three: a listed element's stripped text, when non-blank and under the bound. */
  function ListedProbe(e: Element): Probe<string> {
    var text := Strip(e.text);
    if text != [] && |text| < LabelLimit then Hit(text) else Miss
  }

  function ListedGroup(l: Listing): seq<Probe<string>> {
    match l
    case ListRaised(f) => [Abort(f)]
    case Listed(es) => seq(|es|, k requires 0 <= k < |es| => ListedProbe(es[k]))
  }

  /** Every candidate `find_seller_name` tries, in order. */
  function SellerProbes(p: Page): seq<Probe<string>> {
    [MentionProbe(p)] + (CandidateProbes(p, SellerCandidates) + ListedGroup(LocateAll(p, SellerLabels)))
  }

  /** `find_seller_name`: the first candidate that yields a name; a fault it meets gives `None`. */
  function FindSellerNameSpec(p: Page): Option<string> {
    HitValue(FirstHit(SellerProbes(p)))
  }

  method SearchCandidates(d: Driver, selectors: seq<Selector>) returns (pr: Probe<string>)
    ensures pr == FirstHit(CandidateProbes(d.page, selectors))
  {
    ghost var ps := CandidateProbes(d.page, selectors);
    var i := 0;
    while i < |selectors|
      invariant 0 <= i <= |selectors|
      invariant forall j :: 0 <= j < i ==> ps[j].Miss?
    {
      var found := FindElement(d.page, selectors[i]);
      if found.Err? && found.error.kind != NoSuchElement {
        FirstHitAt(ps, i);
        return Abort(found.error);
      }
      if found.Ok? && Strip(found.value.text) != [] {
        FirstHitAt(ps, i);
        return Hit(Strip(found.value.text));
      }
      i := i + 1;
    }
    FirstHitMiss(ps);
    pr := Miss;
  }

  method SearchListed(d: Driver, sel: Selector) returns (pr: Probe<string>)
    ensures pr == FirstHit(ListedGroup(LocateAll(d.page, sel)))
  {
    ghost var ps := ListedGroup(LocateAll(d.page, sel));
    var listing := LocateAll(d.page, sel);
    if listing.ListRaised? {
      FirstHitAt(ps, 0);
      return Abort(listing.fault);
    }
    var es := listing.elements;
    var j := 0;
    while j < |es|
      invariant 0 <= j <= |es| && |ps| == |es|
      invariant forall k :: 0 <= k < j ==> ps[k].Miss?
    {
      var probe := ListedProbe(es[j]);
      assert ps[j] == probe;
      if probe.Hit? {
        FirstHitAt(ps, j);
        return probe;
      }
      j := j + 1;
    }
    FirstHitMiss(ps);
    pr := Miss;
  }

  method FindSellerName(d: Driver) returns (name: Option<string>)
    ensures name == FindSellerNameSpec(d.page)
  {
    ghost var candidates := CandidateProbes(d.page, SellerCandidates);
    ghost var listed := ListedGroup(LocateAll(d.page, SellerLabels));
    FirstHitAppend([MentionProbe(d.page)], candidates + listed);
    FirstHitAppend(candidates, listed);
    var mention := FindElement(d.page, SellerMention);
    if mention.Ok? && Strip(mention.value.text) != [] {
      return Some(Strip(mention.value.text));
    }
    var pr := SearchCandidates(d, SellerCandidates);
    if pr.Miss? {
      pr := SearchListed(d, SellerLabels);
    }
    name := HitValue(pr);
  }

  /**
   * A mentioning element with non-blank text decides the seller: its whole stripped
   * text, the "sold by" or "seller" wording included.
   */
  lemma {:induction false} MentionWins(p: Page, e: Element)
    requires Locate(p, SellerMention) == Found(e) && Strip(e.text) != []
    ensures FindSellerNameSpec(p) == Some(Strip(e.text))
  {
    FirstHitAt(SellerProbes(p), 0);
  }

  /**
   * A seller name is the stripped, non-blank text of the mentioning element, of a
   * candidate element, or of a listed "sold by"/"seller:" element shorter than 200.
   */
  lemma {:induction false} SellerNameSources(p: Page, name: string)
    requires FindSellerNameSpec(p) == Some(name)
    ensures name != []
    ensures
      || (Locate(p, SellerMention).Found? && name == Strip(Locate(p, SellerMention).element.text))
      || (exists i :: 0 <= i < |SellerCandidates| && Locate(p, SellerCandidates[i]).Found?
            && name == Strip(Locate(p, SellerCandidates[i]).element.text))
      || (exists e :: LocateAll(p, SellerLabels).Listed? && e in LocateAll(p, SellerLabels).elements
            && name == Strip(e.text) && |name| < LabelLimit)
  {
    var candidates := CandidateProbes(p, SellerCandidates);
    var listed := ListedGroup(LocateAll(p, SellerLabels));
    var ps := SellerProbes(p);
    var k := FirstIndex(ps);
    assert k < |ps| && ps[k] == Hit(name);
    if k > |candidates| {
      var l := LocateAll(p, SellerLabels);
      var m := k - 1 - |candidates|;
      assert listed[m] == Hit(name);
      ListedHit(l, m, name);
      assert l.elements[m] in l.elements;
    } else if k > 0 {
      assert ps[k] == CandidateProbe(p, SellerCandidates[k - 1]);
    }
  }

  lemma {:induction false} ListedHit(l: Listing, m: nat, name: string)
    requires m < |ListedGroup(l)| && ListedGroup(l)[m] == Hit(name)
    ensures l.Listed? && m < |l.elements|
    ensures name == Strip(l.elements[m].text) && name != [] && |name| < LabelLimit
  {
  }

  /**
   * `find_seller_name` gives up only when every candidate that would have named a seller
   * comes after a lookup that raised.
   */
  lemma {:induction false} SellerNotFound(p: Page)
    ensures FindSellerNameSpec(p).None? <==>
      forall k :: 0 <= k < |SellerProbes(p)| && SellerProbes(p)[k].Hit? ==>
        exists j :: 0 <= j < k && SellerProbes(p)[j].Abort?
  {
    FirstHitFails(SellerProbes(p));
  }

  // ----- delivery -----

  const DeliverySelectors: seq<Selector> := [
    Css("#mountRoot > div > div:nth-child(1) > main > div.pdp-details.common-clearfix > "
      + "div.pdp-description-container > div:nth-child(2) > div:nth-child(4) > div > div > ul > "
      + "li:nth-child(1) > h4"),
    Css("div.delivery-info h4"),
    Css("li.delivery-option h4")]

  /** A message element's stripped text, cleaned; a failing wait moves on to the next selector. */
  function MessageProbe(p: Page, sel: Selector): Probe<string> {
    match WaitPresent(p, sel)
    case Err(_) => Miss
    case Ok(e) => if Strip(e.text) == [] then Miss else Hit(CleanPrefixed(Strip(e.text)))
  }

  function MessageProbes(p: Page, selectors: seq<Selector>): (ps: seq<Probe<string>>)
    ensures |ps| == |selectors|
  {
    seq(|selectors|, i requires 0 <= i < |selectors| => MessageProbe(p, selectors[i]))
  }

  /** A page line, taken when its lower-cased form mentions "get it by", whatever its length. */
  function LineProbe(line: string): Probe<string> {
    if Contains(Lower(line), Marker) then Hit(CleanPrefixed(Strip(line))) else Miss
  }

  /** The fallback over the page text; a failing body lookup gives `None`. */
  function BodyFallback(p: Page): Option<string> {
    match FindElement(p, BodyTag)
    case Err(_) => None
    case Ok(body) => HitValue(FirstHit(Probes(SplitLines(body.text), LineProbe)))
  }

  /**
   * `get_delivery_info`: the first message element with non-blank text, cleaned; else
   * the first page line mentioning "get it by", cleaned.
   */
  function GetDeliveryInfoSpec(p: Page): Option<string> {
    match FirstHit(MessageProbes(p, DeliverySelectors))
    case Hit(text) => Some(text)
    case _ => BodyFallback(p)
  }

  method SearchMessages(d: Driver, selectors: seq<Selector>) returns (pr: Probe<string>)
    ensures pr == FirstHit(MessageProbes(d.page, selectors))
  {
    ghost var ps := MessageProbes(d.page, selectors);
    var i := 0;
    while i < |selectors|
      invariant 0 <= i <= |selectors|
      invariant forall j :: 0 <= j < i ==> ps[j].Miss?
    {
      var found := WaitPresent(d.page, selectors[i]);
      if found.Ok? && Strip(found.value.text) != [] {
        FirstHitAt(ps, i);
        return Hit(CleanPrefixed(Strip(found.value.text)));
      }
      i := i + 1;
    }
    FirstHitMiss(ps);
    pr := Miss;
  }

  method GetDeliveryInfo(d: Driver) returns (r: Option<string>)
    ensures r == GetDeliveryInfoSpec(d.page)
  {
    var pr := SearchMessages(d, DeliverySelectors);
    if pr.Hit? {
      return Some(pr.value);
    }
    var body := FindElement(d.page, BodyTag);
    if body.Err? {
      return None;
    }
    r := ScanFirst(SplitLines(body.value.text), LineProbe);
  }

  /** A delivery estimate never keeps the " - " separator. */
  lemma {:induction false} DeliveryHasNoDash(p: Page)
    ensures GetDeliveryInfoSpec(p).Some? ==> !Contains(GetDeliveryInfoSpec(p).value, Dash)
  {
    var ps := MessageProbes(p, DeliverySelectors);
    var k := FirstIndex(ps);
    if k == |ps| {
      var body := FindElement(p, BodyTag);
      if body.Ok? {
        var lines := SplitLines(body.value.text);
        var ps := Probes(lines, LineProbe);
        var m := FirstIndex(ps);
        if m < |ps| {
          assert ps[m] == LineProbe(lines[m]);
        }
      }
    }
  }

  /**
   * The delivery selectors are tried in order and the first with non-blank text decides,
   * cleaned of a leading "get it by" and of what follows " - ".
   */
  lemma {:induction false} DeliveryFirstMessage(p: Page, i: nat)
    requires i < |DeliverySelectors| && WaitPresent(p, DeliverySelectors[i]).Ok?
    requires Strip(WaitPresent(p, DeliverySelectors[i]).value.text) != []
    requires forall j :: 0 <= j < i ==>
      WaitPresent(p, DeliverySelectors[j]).Err? || Strip(WaitPresent(p, DeliverySelectors[j]).value.text) == []
    ensures GetDeliveryInfoSpec(p) == Some(CleanPrefixed(Strip(WaitPresent(p, DeliverySelectors[i]).value.text)))
  {
    FirstHitAt(MessageProbes(p, DeliverySelectors), i);
  }

  /**
   * `info` is the clean-up of the first of `lines` whose lower-cased form mentions
   * "get it by"; no earlier line mentions it.
   */
  predicate FirstMentioning(lines: seq<string>, info: string) {
    exists m ::
      && 0 <= m < |lines| && Contains(Lower(lines[m]), Marker)
      && info == CleanPrefixed(Strip(lines[m]))
      && forall j :: 0 <= j < m ==> !Contains(Lower(lines[j]), Marker)
  }

  /**
   * Without a usable message element, the estimate is the first line of the page text
   * that mentions "get it by", however long, cleaned; earlier lines do not mention it.
   */
  lemma {:induction false} DeliveryFromBody(p: Page, info: string)
    requires FirstHit(MessageProbes(p, DeliverySelectors)).Miss? && GetDeliveryInfoSpec(p) == Some(info)
    ensures Locate(p, BodyTag).Found?
    ensures FirstMentioning(SplitLines(Locate(p, BodyTag).element.text), info)
  {
    assert BodyFallback(p) == Some(info);
    var body := FindElement(p, BodyTag);
    assert body.Ok? && Locate(p, BodyTag) == Found(body.value);
    BodyLineFirst(SplitLines(body.value.text), info);
  }

  lemma {:induction false} BodyLineFirst(lines: seq<string>, info: string)
    requires HitValue(FirstHit(Probes(lines, LineProbe))) == Some(info)
    ensures FirstMentioning(lines, info)
  {
    var ps := Probes(lines, LineProbe);
    FirstHitValue(ps, info);
    var m := FirstIndex(ps);
    assert ps[m] == LineProbe(lines[m]);
    assert Contains(Lower(lines[m]), Marker) && info == CleanPrefixed(Strip(lines[m]));
    forall j | 0 <= j < m
      ensures !Contains(Lower(lines[j]), Marker)
    {
      assert ps[j].Miss? && ps[j] == LineProbe(lines[j]);
    }
  }

  // ----- one page -----

  /** The single-page row: no URL number, and no seller ids are ever extracted. */
  datatype SingleRecord = SingleRecord(
    url: string,
    sellerNames: string,
    sellerIds: string,
    delivery: string,
    status: Status,
    notes: string)

  const SellerMissing := "Seller not found; "
  const DeliveryMissing := "Delivery not found; "

  /** The row for the values read: "200" when either is truthy, and one note per missing value. */
  function RowOf(url: string, seller: Option<string>, delivery: Option<string>): SingleRecord {
    var found := Truthy(seller) || Truthy(delivery);
    SingleRecord(url,
      if Truthy(seller) then seller.value else [],
      [],
      if Truthy(delivery) then delivery.value else [],
      if found then Success else NotFound,
      (if Truthy(seller) then [] else SellerMissing) + (if Truthy(delivery) then [] else DeliveryMissing))
  }

  /**
   * The `try` body of `scrape_one`: navigate, wait for the body, enter the pincode,
   * select a size, read the seller and the delivery estimate. The first exception that
   * escapes ends it.
   */
  function VisitSpec(p: Page, url: string, pincode: string): Acted<Result<SingleRecord, Fault>> {
    var nav := [Navigate(url)];
    if p.navigation.Some? then Acted(Err(p.navigation.value), nav)
    else if WaitPresent(p, BodyTag).Err? then Acted(Err(WaitPresent(p, BodyTag).error), nav)
    else
      var entered := EnterPincodeSpec(p, pincode);
      if entered.result.Err? then Acted(Err(entered.result.error), nav + entered.events)
      else
        Acted(Ok(RowOf(url, FindSellerNameSpec(p), GetDeliveryInfoSpec(p))),
              nav + entered.events + ClickFirstSizeSpec(p).events)
  }

  /**
   * `scrape_one`: the visit, then `driver.quit()` in the `finally`, unguarded, so a quit
   * that raises replaces the visit's row or its fault.
   */
  function ScrapeOneSpec(p: Page, url: string, pincode: string): Acted<Result<SingleRecord, Fault>> {
    var v := VisitSpec(p, url, pincode);
    Acted(if p.quitFault.Some? then Err(p.quitFault.value) else v.result, v.events + [Quit])
  }

  /** Fills the row from the values read, updating it as `scrape_one` does. */
  method Classify(data: SingleRecord, seller: Option<string>, delivery: Option<string>) returns (row: SingleRecord)
    requires data == SingleRecord(data.url, [], [], [], NotFound, [])
    ensures row == RowOf(data.url, seller, delivery)
  {
    row := data;
    if Truthy(seller) {
      row := row.(sellerNames := seller.value);
    } else {
      row := row.(notes := row.notes + SellerMissing);
    }
    assert row.notes == (if Truthy(seller) then [] else SellerMissing);
    if Truthy(delivery) {
      row := row.(delivery := delivery.value);
    } else {
      row := row.(notes := row.notes + DeliveryMissing);
    }
    assert row.notes == RowOf(data.url, seller, delivery).notes;
    if Truthy(seller) || Truthy(delivery) {
      row := row.(status := Success);
    } else {
      row := row.(status := NotFound);
    }
  }

  method Visit(d: Driver, url: string, pincode: string) returns (r: Result<SingleRecord, Fault>)
    modifies d
    ensures r == VisitSpec(d.page, url, pincode).result
    ensures d.events == old(d.events) + VisitSpec(d.page, url, pincode).events
  {
    var data := SingleRecord(url, [], [], [], NotFound, []);
    var fault := d.Get(url);
    if fault.Some? {
      return Err(fault.value);
    }
    var body := WaitPresent(d.page, BodyTag);
    if body.Err? {
      return Err(body.error);
    }
    ghost var entering := EnterPincodeSpec(d.page, pincode).events;
    var entered := EnterPincode(d, pincode);
    AppendAssoc(old(d.events), [Navigate(url)], entering);
    if entered.Err? {
      return Err(entered.error);
    }
    var clicked := ClickFirstSize(d);
    AppendAssoc(old(d.events), [Navigate(url)] + entering, ClickFirstSizeSpec(d.page).events);
    var seller := FindSellerName(d);
    var delivery := GetDeliveryInfo(d);
    data := Classify(data, seller, delivery);
    r := Ok(data);
  }

  method ScrapeOne(d: Driver, url: string, pincode: string) returns (r: Result<SingleRecord, Fault>)
    modifies d
    ensures r == ScrapeOneSpec(d.page, url, pincode).result
    ensures d.events == old(d.events) + ScrapeOneSpec(d.page, url, pincode).events
  {
    r := Visit(d, url, pincode);
    var fault := d.Quit();
    if fault.Some? {
      r := Err(fault.value);
    }
  }

  /** The row reports "200" exactly when it carries a seller name or a delivery estimate, else "404"; seller ids stay empty. */
  lemma {:induction false} RowStatusIffData(url: string, seller: Option<string>, delivery: Option<string>)
    ensures RowOf(url, seller, delivery).status.Code() == "200" <==>
      RowOf(url, seller, delivery).sellerNames != [] || RowOf(url, seller, delivery).delivery != []
    ensures RowOf(url, seller, delivery).status.Code() in {"200", "404"}
    ensures RowOf(url, seller, delivery).sellerIds == [] && RowOf(url, seller, delivery).url == url
  {
  }

  /**
   * The notes name the seller exactly when the row has no seller name and the delivery
   * exactly when it has no estimate, the seller's note first.
   */
  lemma {:induction false} RowNotesNameMissing(url: string, seller: Option<string>, delivery: Option<string>)
    ensures Contains(RowOf(url, seller, delivery).notes, SellerMissing) <==> RowOf(url, seller, delivery).sellerNames == []
    ensures Contains(RowOf(url, seller, delivery).notes, DeliveryMissing) <==> RowOf(url, seller, delivery).delivery == []
    ensures RowOf(url, seller, delivery).sellerNames == [] && RowOf(url, seller, delivery).delivery == [] ==>
      RowOf(url, seller, delivery).notes == SellerMissing + DeliveryMissing
  {
    var row := RowOf(url, seller, delivery);
    assert SellerMissing[0] == 'S' && DeliveryMissing[0] == 'D';
    assert 'S' !in DeliveryMissing && 'D' !in SellerMissing;
    NotesFromFragments(SellerMissing, DeliveryMissing, Truthy(seller), Truthy(delivery));
  }

  /** Two note fragments that do not contain each other's first letter are told apart by `Contains`. */
  lemma {:induction false} NotesFromFragments(a: string, b: string, hasA: bool, hasB: bool)
    requires a != [] && b != [] && a[0] !in b && b[0] !in a
    ensures var notes := (if hasA then [] else a) + (if hasB then [] else b);
      && (Contains(notes, a) <==> !hasA)
      && (Contains(notes, b) <==> !hasB)
  {
    var first := if hasA then [] else a;
    var notes := first + (if hasB then [] else b);
    if !hasA {
      assert notes[..|a|] == a;
      OccursContains(notes, a, 0);
    } else {
      assert notes == (if hasB then [] else b);
      MissingFirstChar(notes, a);
    }
    if !hasB {
      assert notes[|first|..] == b;
      OccursContains(notes, b, |first|);
    } else {
      assert notes == first;
      MissingFirstChar(notes, b);
    }
  }

  /**
   * The browser is quit on every path, as the last action, after navigating; an exception
   * escapes exactly when navigation, the wait for the body, a pincode-input lookup or the
   * quit itself raises, and a raising quit's fault is the one that escapes.
   */
  lemma {:induction false} AlwaysQuits(p: Page, url: string, pincode: string)
    ensures var evs := ScrapeOneSpec(p, url, pincode).events;
      |evs| >= 2 && evs[0] == Navigate(url) && evs[|evs| - 1] == Quit
    ensures ScrapeOneSpec(p, url, pincode).result.Err? <==>
      p.navigation.Some? || WaitPresent(p, BodyTag).Err? || EnterPincodeSpec(p, pincode).result.Err? || p.quitFault.Some?
    ensures p.quitFault.Some? ==> ScrapeOneSpec(p, url, pincode).result == Err(p.quitFault.value)
  {
  }
}
