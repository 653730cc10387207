/**
 * The application shell. On mount it creates a smooth-scroll controller over
 * the scroll container and attaches a click listener to every anchor whose
 * `href` starts with `#`. The listener classifies a click: no enclosing
 * anchor, nothing to do; an `href` that is not a fragment, the browser's
 * default; a fragment, the default is suppressed and the controller scrolls
 * to the target if it exists. Cleanup detaches the listeners from the
 * anchors present at that time and destroys the controller.
 *
 * Anchors are identified by a key; the listener set holds the keys of the
 * anchors that have the listener attached. The controller's `scrollTo` is a
 * log of the section ids it was asked to scroll to.
 */
module App {
  import opened Opt
  import opened Sections

  /** An `<a>` element of the page; `href` is `None` when the attribute is absent. */
  datatype Anchor = Anchor(key: nat, href: Option<string>)

  /** The anchor matches `a[href^="#"]`, and its href passes `href.startsWith('#')`. */
  predicate HasFragmentHref(a: Anchor)
  {
    a.href.Some? && IsFragment(a.href.value)
  }

  /** What the listener does with a click. */
  datatype ClickAction =
    | NoAction                  // the click is not inside an anchor
    | DefaultNavigation         // not a fragment link: the browser follows it
    | Intercepted(target: Lookup)  // default prevented; scroll if the target was found

  /** `handleAnchorClick`, given the anchor enclosing the click target (`closest('a')`). */
  function HandleAnchorClick(closest: Option<Anchor>, ids: set<string>): (r: ClickAction)
    ensures closest.None? ==> r == NoAction
    ensures closest.Some? && !HasFragmentHref(closest.value) ==> r == DefaultNavigation
    ensures closest.Some? && HasFragmentHref(closest.value) ==>
              r == Intercepted(QuerySelector(closest.value.href.value, ids))
  {
    match closest
    case None => NoAction
    case Some(a) =>
      if a.href.Some? && IsFragment(a.href.value) then Intercepted(QuerySelector(a.href.value, ids))
      else DefaultNavigation
  }

  /** The click's default action is suppressed. */
  predicate Prevents(r: ClickAction)
  {
    r.Intercepted?
  }

  /** The section the controller is asked to scroll to, if any. */
  function ScrollTarget(r: ClickAction): Option<string>
  {
    if r.Intercepted? && r.target.Found? then Some(r.target.id) else None
  }

  /**
   * The classification in full: the default is prevented exactly for fragment
   * links, and a scroll happens exactly for fragment links whose target exists.
   */
  lemma ClassificationSpec(closest: Option<Anchor>, ids: set<string>)
    ensures Prevents(HandleAnchorClick(closest, ids)) <==>
              closest.Some? && HasFragmentHref(closest.value)
    ensures ScrollTarget(HandleAnchorClick(closest, ids)).Some? <==>
              && closest.Some? && HasFragmentHref(closest.value)
              && |closest.value.href.value| > 1 && closest.value.href.value[1..] in ids
    ensures ScrollTarget(HandleAnchorClick(closest, ids)).Some? ==>
              closest.value.href.value == "#" + ScrollTarget(HandleAnchorClick(closest, ids)).value
  {
  }

  /** The keys of the anchors that match `a[href^="#"]`. */
  function FragmentKeys(anchors: seq<Anchor>): (keys: set<nat>)
    ensures forall i :: 0 <= i < |anchors| && HasFragmentHref(anchors[i]) ==> anchors[i].key in keys
    ensures forall k :: k in keys ==>
              exists i :: 0 <= i < |anchors| && HasFragmentHref(anchors[i]) && anchors[i].key == k
    decreases |anchors|
  {
    if anchors == [] then {}
    else
      var init := anchors[..|anchors| - 1];
      var last := anchors[|anchors| - 1];
      var keys := FragmentKeys(init);
      assert forall i :: 0 <= i < |init| ==> init[i] == anchors[i];
      if HasFragmentHref(last) then keys + {last.key} else keys
  }

  /** The shell's scroll controller and listeners. */
  class AppShell {
    var mounted: bool                  // the effect got past its guard, so it has a cleanup
    var hasController: bool
    var controllersCreated: nat
    var destroyCalls: nat
    var listeners: set<nat>            // keys of anchors carrying the click listener
    var scrollCalls: seq<string>       // targets of the controller's scrollTo, in order
    var uncaughtErrors: nat            // exceptions thrown out of the listener

    constructor ()
      ensures !mounted && !hasController && controllersCreated == 0 && destroyCalls == 0
      ensures listeners == {} && scrollCalls == [] && uncaughtErrors == 0
    {
      mounted, hasController := false, false;
      controllersCreated, destroyCalls := 0, 0;
      listeners, scrollCalls, uncaughtErrors := {}, [], 0;
    }

    /**
     * The mount effect. Without a scroll container it returns at once; otherwise
     * it creates the controller and attaches the listener to every fragment
     * anchor of `anchors`, the anchors in the document at that moment.
     */
    method Mount(containerPresent: bool, anchors: seq<Anchor>)
      modifies this
      ensures !containerPresent ==>
                && mounted == old(mounted) && hasController == old(hasController)
                && controllersCreated == old(controllersCreated) && listeners == old(listeners)
      ensures containerPresent ==>
                && mounted && hasController
                && controllersCreated == old(controllersCreated) + 1
                && listeners == old(listeners) + FragmentKeys(anchors)
      ensures destroyCalls == old(destroyCalls) && scrollCalls == old(scrollCalls)
      ensures uncaughtErrors == old(uncaughtErrors)
    {
      if !containerPresent {
        return;
      }
      hasController := true;
      controllersCreated := controllersCreated + 1;
      mounted := true;
      for i := 0 to |anchors|
        invariant listeners == old(listeners) + FragmentKeys(anchors[..i])
        invariant mounted && hasController && controllersCreated == old(controllersCreated) + 1
        invariant destroyCalls == old(destroyCalls) && scrollCalls == old(scrollCalls)
        invariant uncaughtErrors == old(uncaughtErrors)
      {
        assert anchors[..i + 1][..i] == anchors[..i];
        if HasFragmentHref(anchors[i]) {
          listeners := listeners + {anchors[i].key};
        }
      }
      assert anchors[..|anchors|] == anchors;
    }

    /**
     * A click inside anchor `a`. Only an anchor with the listener reacts; the
     * listener prevents the default for fragments and scrolls to a target
     * that exists. A lone `#` is not a valid selector: the lookup throws
     * after the default was prevented.
     */
    method Click(a: Anchor) returns (prevented: bool)
      modifies this
      ensures a.key !in listeners ==> !prevented && scrollCalls == old(scrollCalls)
      ensures a.key in listeners ==> prevented == Prevents(HandleAnchorClick(Some(a), SectionIds))
      ensures a.key in listeners && ScrollTarget(HandleAnchorClick(Some(a), SectionIds)).Some? ==>
                scrollCalls == old(scrollCalls) + [ScrollTarget(HandleAnchorClick(Some(a), SectionIds)).value]
      ensures a.key in listeners && ScrollTarget(HandleAnchorClick(Some(a), SectionIds)).None? ==>
                scrollCalls == old(scrollCalls)
      ensures uncaughtErrors ==
                if a.key in listeners && HandleAnchorClick(Some(a), SectionIds) == Intercepted(Invalid)
                then old(uncaughtErrors) + 1 else old(uncaughtErrors)
      ensures mounted == old(mounted) && hasController == old(hasController) && listeners == old(listeners)
      ensures controllersCreated == old(controllersCreated) && destroyCalls == old(destroyCalls)
    {
      prevented := false;
      if a.key in listeners {
        var action := HandleAnchorClick(Some(a), SectionIds);
        if action.Intercepted? {
          prevented := true;
          match action.target
          case Found(id) => scrollCalls := scrollCalls + [id];
          case NotFound =>
          case Invalid => uncaughtErrors := uncaughtErrors + 1;
        }
      }
    }

    /**
     * The effect's cleanup, which exists only if the mount got past its guard:
     * detach the listener from the fragment anchors present now, then destroy
     * the controller once.
     */
    method Cleanup(anchorsNow: seq<Anchor>)
      modifies this
      ensures !old(mounted) ==> listeners == old(listeners) && destroyCalls == old(destroyCalls)
                                && hasController == old(hasController)
      ensures old(mounted) ==> listeners == old(listeners) - FragmentKeys(anchorsNow)
                               && destroyCalls == old(destroyCalls) + 1 && !hasController
      ensures !mounted
      ensures controllersCreated == old(controllersCreated) && scrollCalls == old(scrollCalls)
      ensures uncaughtErrors == old(uncaughtErrors)
    {
      if !mounted {
        return;
      }
      for i := 0 to |anchorsNow|
        invariant listeners == old(listeners) - FragmentKeys(anchorsNow[..i])
        invariant mounted && hasController == old(hasController) && destroyCalls == old(destroyCalls)
        invariant controllersCreated == old(controllersCreated) && scrollCalls == old(scrollCalls)
        invariant uncaughtErrors == old(uncaughtErrors)
      {
        assert anchorsNow[..i + 1][..i] == anchorsNow[..i];
        if HasFragmentHref(anchorsNow[i]) {
          listeners := listeners - {anchorsNow[i].key};
        }
      }
      assert anchorsNow[..|anchorsNow|] == anchorsNow;
      destroyCalls := destroyCalls + 1;
      hasController := false;
      mounted := false;
    }
  }

  /** Without a scroll container the mount does nothing: no controller, no listeners. */
  method MountWithoutContainer(anchors: seq<Anchor>) returns (created: nat, attached: set<nat>)
    ensures created == 0 && attached == {}
  {
    var shell := new AppShell();
    shell.Mount(false, anchors);
    created, attached := shell.controllersCreated, shell.listeners;
  }

  /**
   * Mount over a page with an About link and an external link, click each,
   * then unmount, which runs the effect's cleanup once: one scroll to `about`,
   * the external link left alone, no listener left behind, and one destroy.
   */
  method MountClickCleanup() returns (scrolls: seq<string>, externalPrevented: bool, left: set<nat>, destroyed: nat)
    ensures scrolls == ["about"] && !externalPrevented && left == {} && destroyed == 1
  {
    var about := Anchor(0, Some("#about"));
    var external := Anchor(1, Some("https://github.com/Iiboyy"));
    var shell := new AppShell();
    shell.Mount(true, [about, external]);
    assert FragmentKeys([about, external]) == {0};
    var _ := shell.Click(about);
    DeclaredSectionsResolve("about");
    assert "#" + "about" == "#about";
    externalPrevented := shell.Click(external);
    shell.Cleanup([about, external]);
    scrolls, left, destroyed := shell.scrollCalls, shell.listeners, shell.destroyCalls;
  }
}
