# Portfolio site: the deterministic logic behind the pages

This project models, in Dafny, the parts of a React single-page portfolio
that are logic rather than markup. Once the DOM, the timers and the
smooth-scroll library are abstracted away, five pieces remain:

- **Typewriter** (`typewriter.dfy`, the hero header): a three-cell state machine
  `(typedText, charIndex, textIndex)`. Each timer tick either types the next
  character of the current phrase (delay 100 ms) or, once the phrase is complete,
  clears the text and moves on to the next phrase modulo the phrase count
  (delay 2000 ms). The model is a class with a `Tick` method, specified by the
  pure step function `Next`. The lemmas show that the typed text is always a
  prefix of the current phrase and that the effect cycles: after
  Σ(|phrase| + 1) ticks, which is 44 for the header's three phrases, it is back
  at `('', 0, 0)`. They also show which state appears at every tick of a cycle,
  and that each phrase is on screen in full at exactly one tick per cycle.
- **Project filter** (`projects.dfy`): the key `all` shows every project. Any
  other key shows the projects of that category (soundness and completeness),
  each as often as it occurs, in the original order (a subsequence). A key no
  project carries shows nothing. The web and 3D lists split the full list.
  Clicking a filter button makes that button the only one marked active.
- **Certificate modal** (`certificate.dfy`): a single slot. Opening saves the
  page offset and locks scrolling: both overflow styles become `hidden` and
  the body gets the class `modal-open`. Closing clears the slot, releases the
  lock and calls `window.scrollTo` with the saved offset. Escape closes the
  modal only while it is open. A click on the overlay closes it; a click in
  the content does not. A class over the document fields is specified by pure
  transition functions. Every sequence of events keeps "shown" and "locked"
  in step.
- **Navigation bar** (`navbar.dfy`): the mobile menu, the language dropdown,
  the current language, the `isScrolled` threshold, and the creation and
  destruction of the scroll controller. A navigation click always prevents the
  default and closes both menus. It scrolls (offset −80, 800 ms) only if the
  target section exists and a controller is present.
- **Anchor interception** (`app.dfy`, the application shell): a pure
  classification of a click. There may be no anchor, a non-fragment link (the
  browser's default), or a fragment link (default prevented; scroll if the
  target exists). Around it sits a class that attaches the listener to the
  fragment anchors in a loop on mount, and detaches it and destroys the
  controller on cleanup.

`sections.dfy` holds the section ids the components declare
(`home`, `about`, `certificates`, `projects`, `contact`). It also holds the
id-selector form of `document.querySelector`: `#id` finds the section with
that id, and a lone `#` is an invalid selector. `option.dfy` holds `Option`,
which stands in for `null`.

Timers are discrete ticks. The scroll library appears only as logs of
`scrollTo` and as counts of creations and `destroy` calls. The DOM is plain
fields.

Where the code and the design description disagree, the model follows the
code:
- The typewriter clears a completed phrase in one step; it does not delete it
  character by character.
- The scroll-progress formula has no guard for a zero scroll limit, so it is
  not modelled (see below).
- A missing target is silently ignored and nothing is logged.
- Every link whose `href` starts with `#` has its default prevented, even when
  no element has the target id (src/App.jsx:32-35); the design leaves links
  without a resolvable target to the browser's default.
- Two separate scroll controllers are created over the same container, one by
  the shell and one by the navigation bar. Each is modelled on its own.

## Model

| member | source | states |
|---|---|---|
| Typewriter.Next | src/components/Header.jsx:11-26 | one tick keeps the invariant (typed text == first `charIndex` characters of phrase `textIndex`, `charIndex` ≤ phrase length, `textIndex` < phrase count); at a completed phrase it yields `('', 0, (textIndex + 1) % count)` |
| Typewriter.InitialInv | src/components/Header.jsx:6-9 | the mount state `('', 0, 0)` satisfies the invariant |
| Typewriter.RunKeepsInv | src/components/Header.jsx:11-26 | the invariant holds after any number of ticks |
| Typewriter.RunTypes | src/components/Header.jsx:12-15 | typing ticks append the phrase's next characters one by one, leaving `textIndex` unchanged |
| Typewriter.RunPhrase | src/components/Header.jsx:11-23 | a phrase takes its length plus one ticks and ends at the start of the next phrase, cyclically |
| Typewriter.PhraseStart | src/components/Header.jsx:7-26 | from mount, phrase `i` of the list starts, with nothing typed, at tick Σ_{k<i}(len_k + 1) |
| Typewriter.RunToPhrase | src/components/Header.jsx:7-26 | from mount, phrase `i` starts at tick Σ_{k<i}(len_k + 1) |
| Typewriter.RunAt | src/components/Header.jsx:11-26 | at tick `Offset(i) + j` the screen shows the first `j` characters of phrase `i` |
| Typewriter.Cycle | src/components/Header.jsx:11-26 | after Σ(len + 1) ticks the state is `('', 0, 0)` again |
| Typewriter.Periodic | src/components/Header.jsx:11-26 | the effect repeats forever: `m` whole cycles later the state is the same |
| Typewriter.Decompose | src/components/Header.jsx:11-26 | every tick of a cycle belongs to one phrase and one character position |
| Typewriter.PositionUnique | src/components/Header.jsx:11-26 | a tick of a cycle belongs to only one phrase and one character position, so the decomposition is unique |
| Typewriter.PauseExactlyWhenFull | src/components/Header.jsx:12-23 | within a cycle the 2000 ms dwell is scheduled exactly at the ticks where some phrase is on screen in full; every other tick waits 100 ms |
| Typewriter.ElapsedPhrase | src/components/Header.jsx:12-23 | typing and clearing one phrase takes 100 ms per character plus one 2000 ms dwell |
| Typewriter.CycleTime | src/components/Header.jsx:11-26 | a full cycle lasts 100 ms per character of all phrases plus 2000 ms per phrase |
| Typewriter.HeaderCycleTime | src/components/Header.jsx:7-23 | for the header's phrases (41 characters) the cycle lasts 10100 ms |
| Typewriter.ShownInFullOnce | src/components/Header.jsx:11-26 | within a cycle, phrase `i` is on screen in full at exactly one tick, `Offset(i) + len_i` |
| Typewriter.HeaderCycle | src/components/Header.jsx:7 | for the three header phrases the cycle is 44 ticks long and returns to the mount state |
| Typewriter.TwoPhraseCycle | src/components/Header.jsx:11-26 | with phrases "A" and "BC" the screen goes "A", "", …, "BC", and after 5 ticks back to the start |
| Typewriter.TypewriterEffect.constructor | src/components/Header.jsx:6-9 | the effect starts at `('', 0, 0)` with the header's phrases |
| Typewriter.TypewriterEffect.Tick | src/components/Header.jsx:11-26 | a typing tick appends `texts[textIndex][charIndex]` and increments `charIndex` (delay 100); a tick at a completed phrase resets to `''`, 0 and the next phrase (delay 2000); the invariant is kept |
| Projects.SelectCategory | src/components/Projects.jsx:85 | every selected project has the key's category and comes from the list; every project of that category is selected; the result is a subsequence of the list |
| Projects.FilteredProjects | src/components/Projects.jsx:83-85 | `all` yields the list unchanged; any other key yields exactly the projects of that category, in list order |
| Projects.SelectMultiplicity | src/components/Projects.jsx:85 | each project of the category occurs in the result as often as in the list, every other project not at all |
| Projects.UnknownKeyIsEmpty | src/components/Projects.jsx:85 | a key carried by no project selects the empty list |
| Projects.SelectPartition | src/components/Projects.jsx:83-85 | when every project is in category `a` or `b`, the two selections together are a permutation of the list |
| Projects.DistinctIds | src/components/Projects.jsx:38-75 | the project ids are pairwise distinct |
| Projects.WebProjects | src/components/Projects.jsx:38-85 | the web filter shows the first two projects |
| Projects.ThreeDProjects | src/components/Projects.jsx:38-85 | the 3D filter shows the last two projects |
| Projects.WebAnd3dPartitionAll | src/components/Projects.jsx:38-85 | every project is `web` or `3d`, and the web list followed by the 3D list is the `all` list |
| Projects.ActiveMarks | src/components/Projects.jsx:117-120 | button `i` carries the `active` class exactly when its key is the active filter |
| Projects.ClickFilter | src/components/Projects.jsx:121 | clicking a button selects that button's key |
| Projects.ClickMarksExactlyOne | src/components/Projects.jsx:117-121 | after clicking button `k` of a row with distinct keys, button `k` is marked and exactly one button is marked |
| Projects.FiltersWellFormed | src/components/Projects.jsx:77-81 | the filter keys are distinct and the first is `all` |
| CertificateModal.InitialPage | src/components/Certificate.jsx:11 | nothing is selected and no scroll has been requested at mount |
| CertificateModal.Open | src/components/Certificate.jsx:66-72 | opening selects `c`, saves the current page offset, sets both overflow styles to `hidden`, adds `modal-open`, and leaves the offset and the scroll log alone |
| CertificateModal.Close | src/components/Certificate.jsx:74-80 | closing clears the selection, resets both overflow styles to `''`, removes `modal-open`, and scrolls to the saved offset (the log grows by that offset) |
| CertificateModal.KeyDown | src/components/Certificate.jsx:93-97 | Escape while open is a close; Escape while closed, or any other key, changes nothing |
| CertificateModal.Click | src/components/Certificate.jsx:184-195 | a click on the overlay or the close button closes; a click in the content changes nothing |
| CertificateModal.OpenCloseRestores | src/components/Certificate.jsx:66-80 | open then close leaves the page at the offset it had when opened, unlocked, with one `scrollTo` to that offset |
| CertificateModal.CloseRestoresAfterScrolls | src/components/Certificate.jsx:67-79 | however the page moves while the modal is shown, closing returns it to the offset saved at open |
| CertificateModal.OpenReplaces | src/components/Certificate.jsx:66-72 | opening B while A is shown leaves only B selected and overwrites the saved offset with the offset at the second open |
| CertificateModal.ClickOutsideContentOnly | src/components/Certificate.jsx:184-193 | an overlay click closes an open modal; a content click leaves the selection as it is |
| CertificateModal.EscapeClosesOnce | src/components/Certificate.jsx:93-97 | Escape closes an open modal; a second Escape changes nothing, so exactly one `scrollTo` is issued |
| CertificateModal.EventsKeepConsistent | src/components/Certificate.jsx:66-97 | every sequence of opens, keys, clicks and scrolls keeps "a certificate is shown" equivalent to "scrolling is locked" |
| CertificateModal.ModalController.constructor | src/components/Certificate.jsx:64 | the controller starts with no selection, no lock and saved offset 0 |
| CertificateModal.ModalController.OpenModal | src/components/Certificate.jsx:66-72 | the fields change as `Open` says and the shown/locked invariant is kept |
| CertificateModal.ModalController.CloseModal | src/components/Certificate.jsx:74-80 | the fields change as `Close` says and the invariant is kept |
| CertificateModal.ModalController.HandleKeyDown | src/components/Certificate.jsx:93-97 | the fields change as `KeyDown` says |
| CertificateModal.ModalController.HandleClick | src/components/Certificate.jsx:184-195 | on the rendered modal, the fields change as `Click` says |
| Navbar.SmoothScrollCall | src/components/Navbar.jsx:60-67 | a scroll is requested exactly when the target resolves and a controller exists; it targets that section with offset −80 and duration 800 |
| Navbar.NavLinkResolution | src/components/Navbar.jsx:75-81 | `#home`, `#about`, `#projects` and `#contact` resolve to declared sections; `#certificate` does not |
| Navbar.CertificateLinkUnresolved | src/components/Navbar.jsx:78 | the Certificate link's `#certificate` finds no element, so it never scrolls, even with a controller |
| Navbar.CorrectedLinksAllResolve | src/components/Navbar.jsx:75-81 | with `#certificates` in its place every navigation link scrolls to its section |
| Navbar.NavbarController.constructor | src/components/Navbar.jsx:9-16 | both menus closed, not scrolled, language `EN`, no controller |
| Navbar.NavbarController.Mount | src/components/Navbar.jsx:17-25 | a controller is created only when none exists; nothing else changes |
| Navbar.NavbarController.Unmount | src/components/Navbar.jsx:36-39 | an existing controller is destroyed once and the reference cleared; without one nothing is destroyed |
| Navbar.NavbarController.OnScroll | src/components/Navbar.jsx:28-34 | `isScrolled` becomes exactly `scrollTop > 10` for the reported position; nothing else changes |
| Navbar.NavbarController.HandleSmoothScroll | src/components/Navbar.jsx:55-68 | the default is always prevented and both menus closed; the scroll log grows by the call `SmoothScrollCall` determines, if any; a lone `#` throws after the menus close |
| Navbar.NavbarController.HandleLanguageChange | src/components/Navbar.jsx:70-73 | the current language becomes `lang` and the dropdown closes |
| Navbar.NavbarController.HandleClickOutside | src/components/Navbar.jsx:44-47 | the dropdown closes only when it is open and the click lies outside the switcher; otherwise nothing changes |
| Navbar.NavbarController.ToggleLanguage | src/components/Navbar.jsx:130 | the trigger flips the dropdown flag and nothing else |
| Navbar.NavbarController.ToggleMobileMenu | src/components/Navbar.jsx:186 | the menu button flips the mobile-menu flag and nothing else |
| Navbar.RemountLifecycle | src/components/Navbar.jsx:17-40 | mount, mount, cleanup, mount, cleanup, cleanup creates two controllers and destroys two: a second cleanup destroys nothing |
| Navbar.CertificateLinkOnlyClosesMenus | src/components/Navbar.jsx:55-81 | clicking the Certificate link with both menus open closes them, scrolls nowhere and throws nothing |
| Sections.QuerySelector | src/App.jsx:34 | `#id` finds an element exactly when `id` is declared, `#` alone is invalid, anything else finds nothing |
| Sections.DeclaredSectionsResolve | src/components/Certificate.jsx:106 | every declared section id is found by its `#id` selector |
| App.HandleAnchorClick | src/App.jsx:27-39 | no anchor: no action; no href or a non-`#` href: the default; a `#` href: intercepted, with the target's lookup |
| App.ClassificationSpec | src/App.jsx:28-37 | the default is prevented exactly for `#` links, and a scroll happens exactly for `#` links whose target section exists |
| App.FragmentKeys | src/App.jsx:42 | the anchors selected by `a[href^="#"]`: every fragment anchor's key is in the set and every key in it belongs to one |
| App.AppShell.constructor | src/App.jsx:14 | no controller, no listeners, nothing logged |
| App.AppShell.Mount | src/App.jsx:16-44 | without a container nothing happens; otherwise one controller is created and every fragment anchor present gets the listener |
| App.AppShell.Click | src/App.jsx:27-39 | on an anchor with the listener, the default is prevented exactly for `#` links and `scrollTo(target)` is logged exactly once if the target exists, never otherwise; a lone `#` throws after preventing |
| App.AppShell.Cleanup | src/App.jsx:46-52 | the listener is removed from the fragment anchors present at cleanup and the controller destroyed once; a cleanup with no mount behind it does nothing |
| App.MountWithoutContainer | src/App.jsx:17 | with no scroll container, mount creates no controller and attaches no listener |
| App.MountClickCleanup | src/App.jsx:16-53 | a fragment click scrolls once to its section, an external link keeps its default, and the cleanup (run once at unmount) leaves no listener and destroys once |

## Left out

- Animation: framer-motion variants, stagger timings, hover and tap effects, and the one-shot `useInView` reveal. They are presentation handled by a library that is not part of this model.
- The scroll-progress formula `scrollTop / scrollHeight * 100` (src/components/Navbar.jsx:31). It is floating-point and has no guard for a zero scroll limit, so no clamping to [0, 100] is claimed.
- The scroll library's internals (lerp, multiplier, easing animation). `scrollTo` and `destroy` are recorded calls only. `scrollTo` on a controller that was already destroyed is recorded like any other call.
- The two scroll controllers that the shell and the navigation bar each create over the same container, and how they interact. This is lifecycle behaviour of foreign code. Each component's controller is modelled alone.
- Real timers. `clearTimeout` on unmount or re-render is not modelled: a tick is the timeout firing. Re-registration of the keydown and mousedown listeners when their dependencies change is not modelled either: each handler is modelled as it behaves with the current state.
- The progress listener that the navigation bar's mount registers (`on("scroll")`, src/components/Navbar.jsx:28). Only the `isScrolled` update it performs is modelled, as `OnScroll`.
- `window.scrollTo(0, y)` is modelled as moving the page to exactly `y`. The browser's clamping to the document height is not modelled. Page offsets are integers, not fractional pixels.
- `document.querySelector` is modelled only for the id selectors the site passes (`#` followed by an id). Any other selector is treated as matching nothing.
- Anchors are identified by a key and the nesting of elements is not modelled: `closest('a')` is given as the anchor a click lands in.
- The language flags and the `languages.find` lookup are display only. The `currentLanguage` value is modelled; nothing is translated.
- Strings are sequences of characters. JavaScript measures and indexes strings in UTF-16 code units (src/components/Header.jsx:12,14). The two agree for the header's ASCII phrases, but the typewriter lemmas, which hold for any phrase list, do not describe characters outside the Basic Multilingual Plane, which JavaScript types one half at a time.
- Image assets, external links, `window.open`, the gradient hook, and the About, Contact and Footer components. They are static data or floating-point visual effects.

## Findings

| source | as written | input that shows it | evidently intended | confidence | as-written member | corrected member |
|---|---|---|---|---|---|---|
| src/components/Navbar.jsx:78 | the Certificate link's href is `#certificate`, but the section's id is `certificates` (src/components/Certificate.jsx:106; the footer's link uses `#certificates`) | clicking "Certificate" in the navigation bar: `querySelector('#certificate')` is `null`, so the menus close and nothing scrolls | `#certificates`, so the link scrolls to the certificates section | not executed | Navbar.CertificateLinkUnresolved | Navbar.CorrectedLinksAllResolve |
