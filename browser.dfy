/**
 * The browser-automation driver as the scrapers see it. A live page is replaced by an
 * abstract one: what each selector lookup answers (an element, nothing, or a raised
 * exception), what each multi-element lookup answers, the address reached after
 * navigation, and whether navigation itself raises. Actions that change the page are
 * recorded, in order, in the driver's event log.
 */
module Browser {
  import opened Base

  /** The Selenium exception classes the scrapers distinguish, most specific first. */
  datatype FaultKind =
    | Timeout            // TimeoutException
    | NoSuchElement      // NoSuchElementException
    | ClickIntercepted   // ElementClickInterceptedException
    | DriverFault        // any other WebDriverException
    | OtherFault         // any other Exception

  /** A raised exception: its class and the text `str(e)` gives. */
  datatype Fault = Fault(kind: FaultKind, message: string)

  /** What the page does with a click dispatched to an element. */
  datatype ClickOutcome = Clicked | Intercepted | Refused

  /**
   * A page element: its visible text, whether it is displayed and enabled, its `class`
   * attribute ("" when absent), whether it accepts keystrokes, whether it sits inside a
   * `<form>`, and how it answers a click before and right after being scrolled into view.
   */
  datatype Element = Element(
    text: string,
    displayed: bool,
    enabled: bool,
    cls: string,
    acceptsKeys: bool,
    inForm: bool,
    onClick: ClickOutcome,
    onClickAfterScroll: ClickOutcome)

  datatype Selector = Css(css: string) | XPath(path: string) | Tag(name: string)

  /** The answer to a single-element lookup. */
  datatype Lookup = Found(element: Element) | Absent | Raised(fault: Fault)

  /** The answer to a multi-element lookup (`find_elements`). */
  datatype Listing = Listed(elements: seq<Element>) | ListRaised(fault: Fault)

  /**
   * A loaded page: whether navigating raises, what reading `current_url` answers during
   * the page work, what each lookup and listing answers, whether the read of
   * `current_url` in `scrape_url`'s `finally` raises, and whether `driver.quit()` raises.
   */
  datatype Page = Page(
    navigation: Option<Fault>,
    currentUrl: Result<string, Fault>,
    lookups: map<Selector, Lookup>,
    listings: map<Selector, Listing>,
    finishFault: Option<Fault>,
    quitFault: Option<Fault>)

  const BodyTag := Tag("body")

  function Locate(p: Page, sel: Selector): Lookup {
    if sel in p.lookups then p.lookups[sel] else Absent
  }

  function LocateAll(p: Page, sel: Selector): Listing {
    if sel in p.listings then p.listings[sel] else Listed([])
  }

  /**
   * `WebDriverWait(driver, t).until(presence_of_element_located(sel))`: the wait swallows
   * NoSuchElementException while polling and raises TimeoutException when time runs out.
   */
  function WaitPresent(p: Page, sel: Selector): Result<Element, Fault> {
    match Locate(p, sel)
    case Found(e) => Ok(e)
    case Absent => Err(Fault(Timeout, ""))
    case Raised(f) => if f.kind == NoSuchElement then Err(Fault(Timeout, "")) else Err(f)
  }

  /** `safe_find`: the wait above, with TimeoutException turned into `None`. */
  function SafeFind(p: Page, sel: Selector): (r: Result<Option<Element>, Fault>)
    ensures r == Ok(None) <==> Locate(p, sel).Absent? || (Locate(p, sel).Raised? && Locate(p, sel).fault.kind in {Timeout, NoSuchElement})
    ensures r.Err? ==> Locate(p, sel).Raised? && r.error == Locate(p, sel).fault
    ensures r.Ok? && r.value.Some? <==> Locate(p, sel).Found?
  {
    match WaitPresent(p, sel)
    case Ok(e) => Ok(Some(e))
    case Err(f) => if f.kind == Timeout then Ok(None) else Err(f)
  }

  /** `driver.find_element(sel)`: raises NoSuchElementException when nothing matches. */
  function FindElement(p: Page, sel: Selector): Result<Element, Fault> {
    match Locate(p, sel)
    case Found(e) => Ok(e)
    case Absent => Err(Fault(NoSuchElement, ""))
    case Raised(f) => Err(f)
  }

  datatype Key = Enter | Escape

  /** The actions a scraper performs on the page, as recorded in the event log. */
  datatype Event =
    | Navigate(url: string)
    | Clear(target: Element)
    | SendKeys(target: Element, keys: string)
    | PressKey(target: Element, key: Key)
    | Click(target: Element)
    | ScrollIntoView(target: Element)
    | Quit

  /** One browser session: the page it shows and the actions performed on it so far. */
  class Driver {
    const page: Page
    var events: seq<Event>

    constructor (page: Page)
      ensures this.page == page && events == []
    {
      this.page := page;
      events := [];
    }

    /** `driver.get(url)`: returns the exception navigation raises, if any. */
    method Get(url: string) returns (fault: Option<Fault>)
      modifies this
      ensures fault == page.navigation
      ensures events == old(events) + [Navigate(url)]
    {
      events := events + [Navigate(url)];
      fault := page.navigation;
    }

    /** Dispatches a click; the element answers according to whether it was just scrolled to. */
    method Click(e: Element, afterScroll: bool) returns (outcome: ClickOutcome)
      modifies this
      ensures outcome == if afterScroll then e.onClickAfterScroll else e.onClick
      ensures events == old(events) + [Event.Click(e)]
    {
      events := events + [Event.Click(e)];
      outcome := if afterScroll then e.onClickAfterScroll else e.onClick;
    }

    /** `driver.execute_script("arguments[0].scrollIntoView(true);", e)`. */
    method ScrollIntoView(e: Element)
      modifies this
      ensures events == old(events) + [Event.ScrollIntoView(e)]
    {
      events := events + [Event.ScrollIntoView(e)];
    }

    /** `e.clear()`: false when the element raises instead. */
    method Clear(e: Element) returns (ok: bool)
      modifies this
      ensures ok == e.acceptsKeys
      ensures events == old(events) + if ok then [Event.Clear(e)] else []
    {
      ok := e.acceptsKeys;
      if ok {
        events := events + [Event.Clear(e)];
      }
    }

    /** `e.send_keys(keys)`: false when the element raises instead. */
    method SendKeys(e: Element, keys: string) returns (ok: bool)
      modifies this
      ensures ok == e.acceptsKeys
      ensures events == old(events) + if ok then [Event.SendKeys(e, keys)] else []
    {
      ok := e.acceptsKeys;
      if ok {
        events := events + [Event.SendKeys(e, keys)];
      }
    }

    /** `e.send_keys(Keys.ENTER)` or `e.send_keys(Keys.ESCAPE)`. */
    method PressKey(e: Element, key: Key) returns (ok: bool)
      modifies this
      ensures ok == e.acceptsKeys
      ensures events == old(events) + if ok then [Event.PressKey(e, key)] else []
    {
      ok := e.acceptsKeys;
      if ok {
        events := events + [Event.PressKey(e, key)];
      }
    }

    /** `driver.quit()`: always attempted, and it raises the page's quit fault if it has one. */
    method Quit() returns (fault: Option<Fault>)
      modifies this
      ensures fault == page.quitFault
      ensures events == old(events) + [Event.Quit]
    {
      events := events + [Event.Quit];
      fault := page.quitFault;
    }
  }
}
