/**
 * The certificate gallery's modal viewer. One slot holds the certificate on
 * display, or nothing. Opening remembers the page's vertical offset and locks
 * page scrolling (both overflow styles become `hidden` and the body gets the
 * class `modal-open`); closing empties the slot, releases the lock and
 * scrolls the window back to the remembered offset. Escape closes the modal
 * while it is open; a click on the dimmed overlay closes it; a click inside
 * the content does not, since that handler stops the event.
 *
 * The document is plain fields: the two overflow styles, the body's class
 * list and the window's offset. `window.scrollTo(0, y)` is recorded in a log
 * and moves the offset to `y`.
 */
module CertificateModal {
  import opened Opt

  datatype Certificate = Certificate(id: nat, title: string, issuer: string, date: string, description: string)

  const Certificates: seq<Certificate> := [
    Certificate(1, "IT Essentials - Cisco", "Cisco Networking Academy", "2024",
      "Achieved student level credential for completing IT Essentials course"),
    Certificate(2, "UI/UX Design Competition", "Soegijapranata University", "2025",
      "Participated in UI/UX design competition"),
    Certificate(3, "Technology for All", "IBM Skillsbuild", "2025",
      "Junior Achievement and IBM Skillsbuild partnership")
  ]

  const Hidden: string := "hidden"
  const ModalOpenClass: string := "modal-open"
  const EscapeKey: string := "Escape"

  /** Everything the modal reads or writes. */
  datatype Page = Page(
    selected: Option<Certificate>,   // the certificate on display
    savedOffset: int,                // the scroll position remembered at open
    rootOverflow: string,            // document.documentElement.style.overflow
    bodyOverflow: string,            // document.body.style.overflow
    bodyClasses: set<string>,        // document.body.classList
    pageOffset: int,                 // window.pageYOffset
    scrollCalls: seq<int>)           // the y of every window.scrollTo(0, y), in order

  /** Page scrolling is locked, as opening leaves it. */
  predicate Locked(p: Page)
  {
    p.rootOverflow == Hidden && p.bodyOverflow == Hidden && ModalOpenClass in p.bodyClasses
  }

  /** Page scrolling is released, as closing leaves it. */
  predicate Released(p: Page)
  {
    p.rootOverflow == "" && p.bodyOverflow == "" && ModalOpenClass !in p.bodyClasses
  }

  /** The page before any certificate is opened. */
  function InitialPage(offset: int): (p: Page)
    ensures p.selected.None? && p.scrollCalls == []
  {
    Page(None, 0, "", "", {}, offset, [])
  }

  /** `openModal(c)`. */
  function Open(p: Page, c: Certificate): (r: Page)
    ensures r.selected == Some(c)
    ensures r.savedOffset == p.pageOffset
    ensures Locked(r)
    ensures r.bodyClasses == p.bodyClasses + {ModalOpenClass}
    ensures r.pageOffset == p.pageOffset && r.scrollCalls == p.scrollCalls
  {
    p.(selected := Some(c), savedOffset := p.pageOffset,
       rootOverflow := Hidden, bodyOverflow := Hidden,
       bodyClasses := p.bodyClasses + {ModalOpenClass})
  }

  /** `closeModal()`. */
  function Close(p: Page): (r: Page)
    ensures r.selected.None?
    ensures Released(r)
    ensures r.bodyClasses == p.bodyClasses - {ModalOpenClass}
    ensures r.pageOffset == p.savedOffset && r.savedOffset == p.savedOffset
    ensures r.scrollCalls == p.scrollCalls + [p.savedOffset]
  {
    p.(selected := None, rootOverflow := "", bodyOverflow := "",
       bodyClasses := p.bodyClasses - {ModalOpenClass},
       pageOffset := p.savedOffset, scrollCalls := p.scrollCalls + [p.savedOffset])
  }

  /** The keydown listener: Escape closes the modal, but only while one is open. */
  function KeyDown(p: Page, key: string): (r: Page)
    ensures key == EscapeKey && p.selected.Some? ==> r == Close(p)
    ensures key != EscapeKey || p.selected.None? ==> r == p
  {
    if key == EscapeKey && p.selected.Some? then Close(p) else p
  }

  /** Where, inside the open modal, a click lands. */
  datatype ClickTarget =
    | Overlay       // the dimmed backdrop around the content
    | Content       // the content box, whose handler stops propagation
    | CloseButton   // the close button inside the content

  /**
   * A click while the modal is rendered. The close button's own handler
   * closes; the content's handler then stops the event, so a click anywhere
   * inside the content never reaches the overlay's handler.
   */
  function Click(p: Page, target: ClickTarget): (r: Page)
    ensures target == Content ==> r == p
    ensures target != Content ==> r == Close(p)
  {
    match target
    case Overlay => Close(p)
    case Content => p
    case CloseButton => Close(p)
  }

  /** The user or the browser moves the page to offset `y`. */
  function Scrolled(p: Page, y: int): (r: Page)
    ensures r.pageOffset == y
    ensures r.(pageOffset := p.pageOffset) == p
  {
    p.(pageOffset := y)
  }

  /** Opening and then closing leaves the page unlocked, at the offset it had when opened. */
  lemma OpenCloseRestores(p: Page, c: Certificate)
    ensures Close(Open(p, c)).pageOffset == p.pageOffset
    ensures Released(Close(Open(p, c)))
    ensures Close(Open(p, c)).selected.None?
    ensures Close(Open(p, c)).scrollCalls == p.scrollCalls + [p.pageOffset]
  {
  }

  /** The page returns to the opening offset however it is moved while the modal is shown. */
  lemma {:induction false} CloseRestoresAfterScrolls(p: Page, c: Certificate, ys: seq<int>)
    ensures ScrollAll(Open(p, c), ys).selected == Some(c)
    ensures ScrollAll(Open(p, c), ys).savedOffset == p.pageOffset
    ensures Close(ScrollAll(Open(p, c), ys)).pageOffset == p.pageOffset
    decreases |ys|
  {
    if ys != [] {
      CloseRestoresAfterScrolls(p, c, ys[..|ys| - 1]);
    }
  }

  /** Apply the offsets `ys` one after the other. */
  function ScrollAll(p: Page, ys: seq<int>): (r: Page)
    ensures ys != [] ==> r.pageOffset == ys[|ys| - 1]
    decreases |ys|
  {
    if ys == [] then p else Scrolled(ScrollAll(p, ys[..|ys| - 1]), ys[|ys| - 1])
  }

  /**
   * A second open replaces the first: only the newer certificate is shown,
   * and the remembered offset is the one at the second open.
   */
  lemma OpenReplaces(p: Page, a: Certificate, b: Certificate, y: int)
    ensures Open(Scrolled(Open(p, a), y), b).selected == Some(b)
    ensures Open(Scrolled(Open(p, a), y), b).savedOffset == y
    ensures Close(Open(Scrolled(Open(p, a), y), b)).pageOffset == y
  {
  }

  /** A click on the overlay closes the modal; a click inside the content leaves it open. */
  lemma ClickOutsideContentOnly(p: Page)
    requires p.selected.Some?
    ensures Click(p, Overlay).selected.None?
    ensures Click(p, Content).selected == p.selected
  {
  }

  /** Escape closes an open modal, after which a second Escape does nothing. */
  lemma EscapeClosesOnce(p: Page)
    requires p.selected.Some?
    ensures KeyDown(p, EscapeKey).selected.None?
    ensures KeyDown(KeyDown(p, EscapeKey), EscapeKey) == KeyDown(p, EscapeKey)
    ensures |KeyDown(KeyDown(p, EscapeKey), EscapeKey).scrollCalls| == |p.scrollCalls| + 1
  {
  }

  /** A certificate is shown exactly while page scrolling is locked. */
  predicate Consistent(p: Page)
  {
    (p.selected.Some? ==> Locked(p)) && (p.selected.None? ==> Released(p))
  }

  /** What can happen to the page. */
  datatype Event =
    | OpenEvent(c: Certificate)   // a "View Certificate" button
    | KeyEvent(key: string)       // a keydown on the document
    | ClickEvent(t: ClickTarget)  // a click on the modal, if it is rendered
    | ScrollEvent(y: int)         // the page moves

  function Step(p: Page, e: Event): Page
  {
    match e
    case OpenEvent(c) => Open(p, c)
    case KeyEvent(k) => KeyDown(p, k)
    case ClickEvent(t) => if p.selected.Some? then Click(p, t) else p
    case ScrollEvent(y) => Scrolled(p, y)
  }

  function Apply(p: Page, es: seq<Event>): Page
    decreases |es|
  {
    if es == [] then p else Apply(Step(p, es[0]), es[1..])
  }

  /**
   * Starting from a page where nothing is shown and nothing is locked, every
   * sequence of events keeps the lock in step with the modal.
   */
  lemma {:induction false} EventsKeepConsistent(p: Page, es: seq<Event>)
    requires Consistent(p)
    ensures Consistent(Apply(p, es))
    decreases |es|
  {
    if es != [] {
      assert Consistent(Step(p, es[0]));
      EventsKeepConsistent(Step(p, es[0]), es[1..]);
    }
  }

  /** The page's modal controller, with the document as fields. */
  class ModalController {
    var selected: Option<Certificate>
    var savedOffset: int
    var rootOverflow: string
    var bodyOverflow: string
    var bodyClasses: set<string>
    var pageOffset: int
    var scrollCalls: seq<int>

    function Snapshot(): Page
      reads this
    {
      Page(selected, savedOffset, rootOverflow, bodyOverflow, bodyClasses, pageOffset, scrollCalls)
    }

    /** The modal is shown exactly while scrolling is locked. */
    ghost predicate Valid()
      reads this
    {
      Consistent(Snapshot())
    }

    constructor (offset: int)
      ensures Snapshot() == InitialPage(offset)
      ensures Valid()
    {
      selected, savedOffset := None, 0;
      rootOverflow, bodyOverflow, bodyClasses := "", "", {};
      pageOffset, scrollCalls := offset, [];
    }

    method OpenModal(c: Certificate)
      requires Valid()
      modifies this
      ensures Valid()
      ensures Snapshot() == Open(old(Snapshot()), c)
      ensures selected == Some(c) && savedOffset == old(pageOffset)
      ensures rootOverflow == Hidden && bodyOverflow == Hidden
      ensures bodyClasses == old(bodyClasses) + {ModalOpenClass}
      ensures pageOffset == old(pageOffset) && scrollCalls == old(scrollCalls)
    {
      savedOffset := pageOffset;
      selected := Some(c);
      rootOverflow := Hidden;
      bodyOverflow := Hidden;
      bodyClasses := bodyClasses + {ModalOpenClass};
    }

    method CloseModal()
      requires Valid()
      modifies this
      ensures Valid()
      ensures Snapshot() == Close(old(Snapshot()))
      ensures selected.None? && rootOverflow == "" && bodyOverflow == ""
      ensures bodyClasses == old(bodyClasses) - {ModalOpenClass}
      ensures pageOffset == old(savedOffset) && savedOffset == old(savedOffset)
      ensures scrollCalls == old(scrollCalls) + [old(savedOffset)]
    {
      selected := None;
      rootOverflow := "";
      bodyOverflow := "";
      bodyClasses := bodyClasses - {ModalOpenClass};
      scrollCalls := scrollCalls + [savedOffset];
      pageOffset := savedOffset;
    }

    /** The document's keydown listener. */
    method HandleKeyDown(key: string)
      requires Valid()
      modifies this
      ensures Valid()
      ensures Snapshot() == KeyDown(old(Snapshot()), key)
    {
      if key == EscapeKey && selected.Some? {
        CloseModal();
      }
    }

    /** A click on the modal; the modal is only rendered while a certificate is selected. */
    method HandleClick(target: ClickTarget)
      requires Valid() && selected.Some?
      modifies this
      ensures Valid()
      ensures Snapshot() == Click(old(Snapshot()), target)
    {
      match target
      case Overlay => CloseModal();
      case Content =>
      case CloseButton => CloseModal();
    }

    /** The page is scrolled by something outside the modal. */
    method PageScrolled(y: int)
      requires Valid()
      modifies this
      ensures Valid()
      ensures Snapshot() == Scrolled(old(Snapshot()), y)
    {
      pageOffset := y;
    }
  }
}
