# Product-page scraper: a verified model of its decision layer

The system scrapes product pages of an online fashion store with a browser-automation
driver. For each product URL it opens the page and enters a delivery pincode. It then
selects a size and reads two fields: the seller's name and the delivery estimate. Each
page gives one result row with a status code ("200", "400", "404", "408" or "500") and
free-text notes. There are two scrapers:

- `src/myntra_scraper_bulk.py` works through a list of URLs. It has a URL limit, resumes
  against an earlier output, starts one browser session per URL, and saves checkpoints
  along the way as well as a final save.
- `src/myntra_scraper_one.py` scrapes a single URL and quits the browser on every path.

This project models the decision layer of both scrapers in Dafny. The live browser is
replaced by an abstract page (`Browser.Page`), which fixes these things:

- what each selector's single-element lookup answers: an element, nothing, or a raised
  fault of a given kind;
- what each multi-element lookup lists;
- whether navigation and `driver.quit()` raise;
- what reading `current_url` answers during the page work (an address or a raised fault), and whether the read in `scrape_url`'s `finally` raises.

An element carries its text, whether it is displayed and enabled, its `class`, whether it
takes keystrokes, whether it sits inside a form, and how it answers a click before and
right after being scrolled into view.

Every action a scraper performs is recorded in the `Driver`'s event log: navigate, click,
scroll, clear, send keys, press a key, quit. Each operation is then specified by a
function of the page that gives the result together with the events performed. The
imperative Python loops are `method`s with loops, proved against those functions.

Modules:

- `Base`: `Option`, `Result` and Python truthiness of optional strings.
- `Text`: the Python string operations the scrapers use, with their specifications:
  `strip`, `lower`, `upper`, `find`, `in`, `startswith`, `split` and `splitlines`.
- `Browser`: the abstract page, the lookups `safe_find` is built on, and the `Driver`
  class with its event log.
- `Chain`: ordered fallback chains. Side-effect-free chains use `FirstHit`; chains whose
  attempts act on the page use `RunChain`. Each candidate yields a hit, a miss, or an abort.
  - The first candidate that does not miss decides the chain.
  - Nothing after it is tried.
- `Normalise`: the pure text derivations for delivery estimates and seller labels, in both
  scrapers' variants.
- `Records`: status codes and the bulk result row.
- `ScraperBulk`, `Batch`: `src/myntra_scraper_bulk.py`. `Batch` holds `main`.
- `ScraperOne`: `src/myntra_scraper_one.py`.

## Model

| member | source | states |
|---|---|---|
| Browser.SafeFind | src/myntra_scraper_bulk.py:56-60 | gives `None` exactly when the element is absent or the wait raised Timeout/NoSuchElement; any other fault escapes unchanged; an element exactly when the lookup found one |
| Browser.Driver.Get | src/myntra_scraper_bulk.py:287 | navigation reports the page's navigation fault, if any, and logs the navigation |
| Browser.Driver.Click | src/myntra_scraper_bulk.py:65 | a click is answered by the element's behaviour before or right after scrolling, and is logged |
| Browser.Driver.ScrollIntoView | src/myntra_scraper_bulk.py:69 | scrolling to an element is logged and changes nothing else |
| Browser.Driver.Clear | src/myntra_scraper_bulk.py:127 | clearing succeeds exactly when the element takes keys, and is logged only then |
| Browser.Driver.SendKeys | src/myntra_scraper_bulk.py:128 | typing succeeds exactly when the element takes keys, and is logged only then |
| Browser.Driver.PressKey | src/myntra_scraper_bulk.py:143 | pressing Enter/Escape succeeds exactly when the element takes keys, and is logged only then |
| Browser.Driver.Quit | src/myntra_scraper_one.py:261 | quitting is logged as the last action, and it reports the fault the page's quit raises, if any |
| Text.LStripSpec | src/myntra_scraper_bulk.py:245 | `lstrip()` returns a suffix; every dropped character is white space, and the first kept one is not |
| Text.RStripSpec | src/myntra_scraper_bulk.py:245 | `rstrip()` returns a prefix; every dropped character is white space, and the last kept one is not |
| Text.StripIsSlice | src/myntra_scraper_bulk.py:245 | `strip()` returns a contiguous slice of its argument |
| Text.StripEmptyIffBlank | src/myntra_scraper_bulk.py:244 | `strip()` is empty exactly when the text is blank |
| Text.FindFromSpec | src/myntra_scraper_bulk.py:248 | `find` answers an occurrence, or -1; no occurrence lies before its answer |
| Text.OccursContains | src/myntra_scraper_bulk.py:247-248 | an occurrence makes `in` true, and `find` answers no later than it |
| Text.Before | src/myntra_scraper_bulk.py:250 | `split(sep)[0]` is a prefix free of `sep`; when `sep` occurs, it is the prefix up to the first occurrence, which follows it; it is the whole text otherwise |
| Text.PrefixBeforeFirst | src/myntra_scraper_bulk.py:250 | the text before the first occurrence of `sep` holds none |
| Text.After | src/myntra_scraper_bulk.py:215 | `split(sep, 1)[1]` is the tail of a split of the text into head, `sep` and tail in which `sep` starts nowhere before the end of the head |
| Text.StripKeepsAbsence | src/myntra_scraper_bulk.py:250 | stripping cannot create an occurrence of a pattern |
| Text.StripTrimmed | src/myntra_scraper_bulk.py:245 | `strip()` is the slice of its argument left after trimming blank text at both ends, with no white space at its own ends |
| Text.TrimmedUnique | src/myntra_scraper_bulk.py:245 | that trimming has exactly one result, so it determines what `strip()` returns |
| Text.SplitLinesSound | src/myntra_scraper_bulk.py:257 | `splitlines()` gives lines without boundary characters which, joined, are exactly the text's non-boundary characters in order |
| Text.SplitLinesSlices | src/myntra_scraper_bulk.py:257 | line `k` of `splitlines()` is the slice from its start up to the next boundary, each line starting just past the previous boundary ("\r\n" counting once), and the lines end where the text does |
| Normalise.CutAtDash | src/myntra_scraper_bulk.py:249-250 | the input unchanged when it has no " - "; otherwise the text before the first " - " with blank ends trimmed; never contains " - " |
| Normalise.CleanMessage | src/myntra_scraper_bulk.py:245-251 | with a case-insensitive "get it by" anywhere, the dash cut of what follows its first occurrence, blank ends trimmed; without one, the dash cut of the whole text; never leaves " - " |
| Normalise.CleanPrefixed | src/myntra_scraper_one.py:186-192 | when the text starts with "get it by" (any case), the dash cut of what follows it, blank ends trimmed; otherwise the dash cut of the whole text; never leaves " - " |
| Normalise.CleanBodyLine | src/myntra_scraper_bulk.py:258-265 | a cleaned page line never contains " - " |
| Normalise.MarkerAtStart | src/myntra_scraper_bulk.py:261-262 | text whose lower-cased form starts with "get it by" finds it at index 0 |
| Normalise.BodyLineIsPrefixed | src/myntra_scraper_bulk.py:258-264 | the bulk page-line clean-up is the prefix clean-up of the stripped line |
| Normalise.MessageCleanupsAgreeOnPrefix | src/myntra_scraper_bulk.py:246-251 | on text starting with "get it by", the bulk message clean-up and the prefix clean-up agree |
| Normalise.LabelValue | src/myntra_scraper_bulk.py:215-217 | the text after the first marker with blank ends trimmed: empty exactly when that remainder is blank, lower-case when the input is |
| Normalise.DropManufacturer | src/myntra_scraper_bulk.py:218-219 | the name unchanged when "manufacturer" is absent; otherwise the text before its first occurrence with blank ends trimmed; never contains "manufacturer" and stays lower-case |
| Normalise.SellerFromLabel | src/myntra_scraper_bulk.py:211-226 | the "sold by" branch comes first: no name exactly when the remainder is blank, otherwise the trimmed remainder cut before "manufacturer", lower-case; next the "seller:" branch: the trimmed remainder, likewise; otherwise the whole text, exactly when 2 < length < 100 |
| Normalise.SampleMessageCleaned | src/myntra_scraper_bulk.py:245-251 | both clean-ups turn "Get it by Fri, 12 Jan - 560037" into "Fri, 12 Jan" |
| Chain.FirstIndex | src/myntra_scraper_bulk.py:197-200 | the position of the first candidate that does not miss; every earlier one missed |
| Chain.FirstHitAt | src/myntra_scraper_bulk.py:197-200 | a candidate preceded only by misses decides the chain |
| Chain.FirstHitMiss | src/myntra_scraper_bulk.py:197-200 | a chain misses exactly when every candidate misses |
| Chain.FirstHitFails | src/myntra_scraper_bulk.py:185-229 | a chain yields no value exactly when every candidate that would have yielded one comes after an abort |
| Chain.FirstHitAppend | src/myntra_scraper_bulk.py:187-208 | two chains tried one after the other behave as one chain |
| Chain.FirstHitGroupDecides | src/myntra_scraper_bulk.py:208-226 | in a nested loop, the first group that does not miss decides the whole chain |
| Chain.RunChainHit | src/myntra_scraper_bulk.py:123-148 | an acting chain is decided by the first attempt that does not miss, after exactly the actions up to it |
| Chain.RunChainExhausted | src/myntra_scraper_bulk.py:123-148 | an acting chain whose attempts all miss performs all of them and misses |
| Chain.RunChainDecided | src/myntra_scraper_bulk.py:123-148 | conversely, a decided acting chain had an attempt preceded only by misses; a missing one had every attempt miss |
| Chain.RunChainGroupRun | src/myntra_scraper_bulk.py:160-170 | one group of a nested acting loop either decides the whole chain or extends the misses and actions over itself |
| Chain.ScanFirst | src/myntra_scraper_bulk.py:257-265 | the line loop returns the value of the first line that does not miss, or nothing |
| ScraperBulk.SafeClickRetriesOnce | src/myntra_scraper_bulk.py:63-76 | `safe_click` succeeds exactly when the element is clickable and the first click, or the one after the scroll, is taken; it clicks at most twice, touches only that element, and never clicks an unclickable one |
| ScraperBulk.SafeClick | src/myntra_scraper_bulk.py:63-76 | the method's result and actions are those of the specification |
| ScraperBulk.TryClose | src/myntra_scraper_bulk.py:81-87 | one close control: its lookup, then the safe click |
| ScraperBulk.HandlePopups | src/myntra_scraper_bulk.py:79-111 | the loop over the close controls performs exactly the specified chain and the Escape fallback |
| ScraperBulk.PopupsReportClosing | src/myntra_scraper_bulk.py:79-111 | `handle_popups` returns true exactly when some close control was clicked, and then Escape is never pressed |
| ScraperBulk.TryButton | src/myntra_scraper_bulk.py:138-141 | one confirm button: its lookup, then the safe click |
| ScraperBulk.ConfirmPincode | src/myntra_scraper_bulk.py:137-141 | the button loop performs exactly the specified chain |
| ScraperBulk.TryInput | src/myntra_scraper_bulk.py:124-147 | one pincode input: lookup, clear, type, confirm by button or Enter; a raising step moves on |
| ScraperBulk.SearchInputs | src/myntra_scraper_bulk.py:123-148 | the input loop performs exactly the specified chain |
| ScraperBulk.EnterPincode | src/myntra_scraper_bulk.py:114-148 | the method's result and actions are those of `enter_pincode`'s specification |
| ScraperBulk.InputAttemptMisses | src/myntra_scraper_bulk.py:123-146 | an input's attempt misses exactly when its lookup does not raise and gives no fillable input (none found, refusing keys, or a button search that raises), and aborts exactly when its lookup raises |
| ScraperBulk.InputAttemptsClassified | src/myntra_scraper_bulk.py:123-146 | each input's attempt misses or aborts according to its own lookup |
| ScraperBulk.PincodeNotEntered | src/myntra_scraper_bulk.py:123-148 | false exactly when every input lookup answers and none gives a fillable input |
| ScraperBulk.PincodeEnteredMeansTyped | src/myntra_scraper_bulk.py:123-148 | true only after the pincode was typed into an element; an error is the fault of the first input lookup that raises, every earlier input having answered without being fillable |
| ScraperBulk.MalformedButtonsNeverConfirm | src/myntra_scraper_bulk.py:130-146 | when the first button XPath raises a fault other than a timeout, `enter_pincode` never returns true and never presses a key |
| ScraperBulk.TrySize | src/myntra_scraper_bulk.py:163-170 | one size element, clicked through `safe_click` only when selectable |
| ScraperBulk.SearchSizeGroup | src/myntra_scraper_bulk.py:161-170 | the elements one selector lists are tried in order; a failing listing escapes |
| ScraperBulk.SearchSizes | src/myntra_scraper_bulk.py:160-170 | the selector loop performs exactly the specified nested chain |
| ScraperBulk.TryLabelled | src/myntra_scraper_bulk.py:172-181 | one fallback button: tried only when its caption is a size label |
| ScraperBulk.SearchLabelled | src/myntra_scraper_bulk.py:171-181 | the fallback loop performs exactly the specified chain |
| ScraperBulk.ClickFirstSize | src/myntra_scraper_bulk.py:151-182 | the method's result and actions are those of `click_first_size`'s specification |
| ScraperBulk.SizeAttemptTouchesSelectable | src/myntra_scraper_bulk.py:165-177 | one size attempt clicks or scrolls only to a selectable element |
| ScraperBulk.SizeClicksOnlySelectable | src/myntra_scraper_bulk.py:160-182 | `click_first_size` clicks or scrolls only to displayed, enabled elements whose class lacks "selected"; true only after clicking one |
| ScraperBulk.SearchTexts | src/myntra_scraper_bulk.py:197-200 | the selector loop returns the first hit of the specified chain |
| ScraperBulk.SearchLabelGroup | src/myntra_scraper_bulk.py:210-226 | the loop over listed labels returns the first hit of their chain |
| ScraperBulk.SearchLabels | src/myntra_scraper_bulk.py:208-226 | the XPath loop returns the first hit of the specified nested chain |
| ScraperBulk.FindSellerName | src/myntra_scraper_bulk.py:185-229 | the method's result is `find_seller_name`'s specification |
| ScraperBulk.SellerPrimaryWins | src/myntra_scraper_bulk.py:187-189 | a primary seller element with non-blank text decides the name: its stripped text |
| ScraperBulk.SellerNotFound | src/myntra_scraper_bulk.py:185-229 | no name exactly when every candidate that would have named one comes after a raising lookup |
| ScraperBulk.SellerNameSources | src/myntra_scraper_bulk.py:185-229 | a name is the non-blank stripped text of a seller selector's element, or what `SellerFromLabel` derives from a listed label |
| ScraperBulk.GetDeliveryInfo | src/myntra_scraper_bulk.py:232-269 | the method's result is `get_delivery_info`'s specification |
| ScraperBulk.DeliveryHasNoDash | src/myntra_scraper_bulk.py:242-265 | a delivery estimate never contains " - " |
| ScraperBulk.DeliveryFirstMessage | src/myntra_scraper_bulk.py:242-251 | the first delivery selector with non-blank text, after selectors giving nothing usable, decides the estimate by the message clean-up |
| ScraperBulk.DeliveryFallsBack | src/myntra_scraper_bulk.py:242-253 | a selector lookup that raises, or running out of selectors, after selectors giving nothing usable, sends the search to the page text |
| ScraperBulk.BodyFallbackFirst | src/myntra_scraper_bulk.py:255-267 | without a body element nothing is found; otherwise the estimate is the cleaned first line under 150 characters mentioning "get it by", and nothing exactly when no line qualifies |
| ScraperBulk.DeliverySources | src/myntra_scraper_bulk.py:242-265 | an estimate is the message clean-up of the first delivery element giving anything usable, or the line clean-up of the first qualifying page line, which holds no line break |
| ScraperBulk.BodyLineSource | src/myntra_scraper_bulk.py:255-265 | the line loop's value is the cleaned first qualifying line; no earlier line qualifies |
| ScraperBulk.FaultStatus | src/myntra_scraper_bulk.py:329-343 | a fault never gives "200"; Timeout gives "408", NoSuchElement gives "404", ClickIntercepted gives "400", a WebDriver or other error gives "500", and each only then |
| ScraperBulk.FaultNoteQuotesMessage | src/myntra_scraper_bulk.py:332-343 | every fault note except the timeout note quotes the exception's message |
| ScraperBulk.NotesNeverSay404 | src/myntra_scraper_bulk.py:326 | the accumulated notes never contain "404", so the no-data prefix is always added |
| ScraperBulk.Classify | src/myntra_scraper_bulk.py:301-327 | the row the dict updates build is the specified row |
| ScraperBulk.VisitPage | src/myntra_scraper_bulk.py:285-327 | navigation, the body wait, the address read (whose fault ends the visit), the error-page test and the page work perform exactly the specified actions |
| ScraperBulk.WorkPage | src/myntra_scraper_bulk.py:298-319 | popups, pincode, size, seller and delivery run in that order as specified |
| ScraperBulk.ScrapeUrl | src/myntra_scraper_bulk.py:272-347 | the method's row (or escaping fault) and actions are `scrape_url`'s specification |
| ScraperBulk.ErrorPageShortCircuits | src/myntra_scraper_bulk.py:292-296 | on a "404"/"error" address only the navigation happens, and the row is "404" with the redirect note |
| ScraperBulk.RowKeepsIdentity | src/myntra_scraper_bulk.py:273-281 | a row keeps its URL number and URL, and its seller ids stay empty |
| ScraperBulk.RowSuccessIffData | src/myntra_scraper_bulk.py:321-322 | a row is "200" exactly when it carries a seller name or a delivery estimate |
| ScraperBulk.NoDataRowExplained | src/myntra_scraper_bulk.py:321-327 | a loaded page without data is "404"; its notes start with the no-data explanation and name both missing fields |
| ScraperBulk.AddressReadFails | src/myntra_scraper_bulk.py:292-343 | a raising address read performs only the navigation and gives that fault's status and note, "500" for a WebDriver error |
| ScraperBulk.MissingBodyTimesOut | src/myntra_scraper_bulk.py:289-331 | a page whose body never appears performs only the navigation and gives "408" |
| Batch.Limited | src/myntra_scraper_bulk.py:362-363 | the limited list is a prefix of the work list, of the limit's length when shorter, and all of it without a limit |
| Batch.Unprocessed | src/myntra_scraper_bulk.py:382 | the filter keeps only tasks of the list whose URL is not done, and never more than the list |
| Batch.UnprocessedMembers | src/myntra_scraper_bulk.py:382 | the resume filter keeps exactly the tasks whose URL is not done |
| Batch.AllProcessed | src/myntra_scraper_bulk.py:382 | nothing is left when every URL is done |
| Batch.UnprocessedIncreasing | src/myntra_scraper_bulk.py:382 | the filter keeps the tasks' order |
| Batch.LimitedNumbered | src/myntra_scraper_bulk.py:360-363 | task `k` of the limited list is the `k + 1`-th URL, and the list has the limit's length or the input's |
| Batch.PendingSound | src/myntra_scraper_bulk.py:360-382 | every pending task carries its 1-based input position and URL, lies within the limit, and is not in a prior output with a URL column |
| Batch.PendingComplete | src/myntra_scraper_bulk.py:360-382 | every URL within the limit that the prior output lacks is pending, with its number |
| Batch.PendingOrdered | src/myntra_scraper_bulk.py:360-382 | pending task numbers strictly increase |
| Batch.RunTask | src/myntra_scraper_bulk.py:389-440 | one task gives the start-failure row, the scraped row, or the unhandled-exception row; only the last skips the checkpoint test; a started browser performs the scrape's actions and is then quit |
| Batch.RunSession | src/myntra_scraper_bulk.py:412-440 | a started browser gives the scraped row, or the unhandled-exception row when the scrape raises; it performs the scrape's actions and is then quit, and a quit that raises changes nothing |
| Batch.AppendStep | src/myntra_scraper_bulk.py:406-420 | appending one outcome adds its row and at most one snapshot |
| Batch.RunBatch | src/myntra_scraper_bulk.py:351-443 | an unreadable input gives nothing; otherwise the results are the preloaded rows and then one row per pending task, and the saves are the checkpoints followed by the final full save |
| Batch.OneRowPerTask | src/myntra_scraper_bulk.py:373-433 | the preloaded rows stay first and unchanged, then exactly one row per task, in order, with its number and URL |
| Batch.CheckpointsExactly | src/myntra_scraper_bulk.py:406-433 | a snapshot is taken after the `k`-th outcome exactly when its path runs the test and `k` is a multiple of the interval; it holds the first `k` new rows |
| Batch.SavesArePrefixes | src/myntra_scraper_bulk.py:406-443 | every snapshot starts with the preloaded rows and is a prefix of the final list |
| Batch.CheckpointCount | src/myntra_scraper_bulk.py:406-420 | when every path runs the test, `n` outcomes take `n / interval` snapshots |
| Batch.NothingLeftToScrape | src/myntra_scraper_bulk.py:375-443 | when the prior output holds every limited URL, no task runs and the only save is the prior rows |
| ScraperOne.TryButton | src/myntra_scraper_one.py:66-71 | one confirm button: its lookup, then a plain click |
| ScraperOne.ConfirmPincode | src/myntra_scraper_one.py:66-71 | the button loop performs exactly the specified chain |
| ScraperOne.TryInput | src/myntra_scraper_one.py:52-77 | one pincode input: lookup, clear, type, form lookup, confirm by button or newline; a raising step moves on |
| ScraperOne.SearchInputs | src/myntra_scraper_one.py:51-79 | the input loop performs exactly the specified chain |
| ScraperOne.EnterPincode | src/myntra_scraper_one.py:38-79 | the method's result and actions are `enter_pincode`'s specification |
| ScraperOne.InputAttemptMisses | src/myntra_scraper_one.py:52-77 | an input's attempt misses exactly when its lookup does not raise and gives no fillable input (none found, refusing keys, outside a form, or a button search that raises), and aborts exactly when its lookup raises |
| ScraperOne.InputAttemptsClassified | src/myntra_scraper_one.py:51-77 | each input's attempt misses or aborts according to its own lookup |
| ScraperOne.PincodeNotEntered | src/myntra_scraper_one.py:51-79 | false exactly when every input lookup answers and none gives a fillable input |
| ScraperOne.PincodeLookupFault | src/myntra_scraper_one.py:51-79 | an error is the fault of the first raising input lookup, after inputs that were not fillable |
| ScraperOne.PincodeEnteredMeansConfirmed | src/myntra_scraper_one.py:54-75 | true only after the pincode was typed into an input inside a form and confirmed by a taken click or a typed newline |
| ScraperOne.TrySize | src/myntra_scraper_one.py:98-112 | one size element: clicked when shown, retried once after a scroll when intercepted |
| ScraperOne.SearchSizeGroup | src/myntra_scraper_one.py:96-112 | the elements one selector lists are tried in order |
| ScraperOne.SearchSizes | src/myntra_scraper_one.py:95-112 | the selector loop performs exactly the specified nested chain |
| ScraperOne.TryLabelled | src/myntra_scraper_one.py:115-123 | one fallback button: clicked when its caption is a size label |
| ScraperOne.SearchLabelled | src/myntra_scraper_one.py:114-123 | the fallback loop performs exactly the specified chain |
| ScraperOne.ClickFirstSize | src/myntra_scraper_one.py:81-126 | the method's result and actions are `click_first_size`'s specification |
| ScraperOne.AttemptsTouchSizes | src/myntra_scraper_one.py:98-123 | one attempt touches only shown elements or size-captioned buttons |
| ScraperOne.ChainTouchesSizes | src/myntra_scraper_one.py:95-123 | so does every attempt of the whole chain |
| ScraperOne.SizeClicksOnlySizes | src/myntra_scraper_one.py:81-126 | `click_first_size` clicks or scrolls only to displayed, enabled elements or buttons captioned S, M, L, XL or XS; true only after a taken click |
| ScraperOne.RefusedClickEndsSearch | src/myntra_scraper_one.py:98-125 | a shown first size element that refuses the click ends the search with false after that one click |
| ScraperOne.SearchCandidates | src/myntra_scraper_one.py:157-163 | the candidate loop returns the first hit of the specified chain |
| ScraperOne.SearchListed | src/myntra_scraper_one.py:166-170 | the last-resort loop returns the first hit of the specified chain |
| ScraperOne.FindSellerName | src/myntra_scraper_one.py:128-174 | the method's result is `find_seller_name`'s specification |
| ScraperOne.MentionWins | src/myntra_scraper_one.py:137-146 | a mentioning element with non-blank text decides the seller: its whole stripped text |
| ScraperOne.SellerNameSources | src/myntra_scraper_one.py:134-170 | a name is non-blank and is the stripped text of the mentioning element, of a candidate, or of a listed label shorter than 200 |
| ScraperOne.ListedHit | src/myntra_scraper_one.py:167-170 | a last-resort hit is a listed element's non-blank stripped text shorter than 200 |
| ScraperOne.SellerNotFound | src/myntra_scraper_one.py:134-174 | no name exactly when every candidate that would have named one comes after a raising lookup |
| ScraperOne.SearchMessages | src/myntra_scraper_one.py:182-194 | the selector loop returns the first hit of the specified chain |
| ScraperOne.GetDeliveryInfo | src/myntra_scraper_one.py:176-208 | the method's result is `get_delivery_info`'s specification |
| ScraperOne.DeliveryHasNoDash | src/myntra_scraper_one.py:182-205 | a delivery estimate never contains " - " |
| ScraperOne.DeliveryFirstMessage | src/myntra_scraper_one.py:182-192 | the first delivery selector with non-blank text decides the estimate, by the prefix clean-up |
| ScraperOne.DeliveryFromBody | src/myntra_scraper_one.py:196-205 | without a usable message element, the estimate is the cleaned first page line mentioning "get it by", of any length |
| ScraperOne.BodyLineFirst | src/myntra_scraper_one.py:198-205 | the line loop's value is the cleaned first mentioning line; no earlier line mentions it |
| ScraperOne.Classify | src/myntra_scraper_one.py:238-257 | the row the dict updates build is the specified row |
| ScraperOne.Visit | src/myntra_scraper_one.py:221-259 | navigation, the body wait, pincode, size, seller and delivery perform exactly the specified actions |
| ScraperOne.ScrapeOne | src/myntra_scraper_one.py:210-261 | the method's row (or escaping fault, a raising quit's fault taking precedence) and actions are `scrape_one`'s specification |
| ScraperOne.RowStatusIffData | src/myntra_scraper_one.py:254-258 | "200" exactly when the row carries a seller name or an estimate, else "404"; seller ids stay empty |
| ScraperOne.RowNotesNameMissing | src/myntra_scraper_one.py:244-252 | the notes name the seller exactly when it is missing and the delivery exactly when it is missing, the seller's note first |
| ScraperOne.AlwaysQuits | src/myntra_scraper_one.py:221-261 | the browser is quit last on every path, after navigating; a fault escapes exactly when navigation, the body wait, an input lookup or the quit raises, and a raising quit's fault is the one that escapes |

## Left out

- Starting the browser (`start_driver`, the driver manager, Chrome options) is not modelled. In the batch it is a given function from task to a started session or a start failure. In `scrape_one`, a start failure is not modelled.
- Sleeps and wait timeouts are left out: a wait is the lookup's answer on the abstract page.
- Spreadsheet reading and writing are left out. The input and the earlier output are given values, and every save is the list of rows saved. Read errors other than a missing file or a missing URL column are not modelled.
- `print` logging is left out. So is the `driver.current_url` read in `scrape_url`'s `finally`, except that it may raise: that fault is `Page.finishFault`.
- `ScraperBulk.VisitPage`: every read of `driver.current_url` during the page work (two in the test at src/myntra_scraper_bulk.py:292, one more in the message at line 295) gives the same answer, `Page.currentUrl`. A page whose address read raises only on a later read is not modelled.
- `Text.Lower`, `Text.Upper`: case mapping covers ASCII letters only; Python's full Unicode case mapping is not modelled.
- Stale-element exceptions, and exceptions from `is_displayed`, `is_enabled` or `get_attribute`, are not modelled. Element properties are fixed values.
- How an element answers a click is fixed per element: before scrolling, and right after scrolling. A click that times out in `element_to_be_clickable` is modelled as an element that is not clickable.
- The scroll script is taken never to raise.
- `ScraperOne.TryInput`: the `ancestor::form` lookup is the element's `inForm` flag, and a failing typed newline is not modelled separately from refusing keys.
- `Batch.RunBatch`: the URL limit is a natural number or none. A negative limit, which Python slicing would treat differently, is not modelled.
- `Batch.RunBatch`: saving never fails. In `main`, a checkpoint save that raises after a scraped row (src/myntra_scraper_bulk.py:417-419) is caught by the same handler as the scrape, so a second, "Unhandled exception" row for the same URL is appended and the count advances again; one that raises after a start-failure row (line 409) ends `main`. Neither path is modelled.
- The bulk scraper's "Page loaded, but no relevant data" note is kept in `ScraperBulk.Classify`, but it can never be written. A page without data always carries at least the seller note.
- The model follows the code as written, in particular:
  - the bulk message clean-up cuts after the first "get it by" anywhere in the text, not only at its start;
  - a label text that mentions a marker is never accepted whole;
  - a fault from the final `current_url` read escapes `scrape_url` and gives the unhandled-exception row, which skips the checkpoint test;
  - `scrape_one` lets faults escape to its caller;
  - only the bulk scraper's page-text fallback has a length bound.
