/**
 * The page sections that the components declare with an `id` attribute, and
 * the part of `document.querySelector` that the site uses: looking an element
 * up by an id selector such as `#about`.
 */
module Sections {
  /** The section ids rendered on the page: Header, About, Certificate, Projects, Contact. */
  const SectionIds: set<string> := {"home", "about", "certificates", "projects", "contact"}

  /** What `document.querySelector(selector)` does with an id selector. */
  datatype Lookup =
    | Found(id: string)   // an element with this id exists
    | NotFound            // the selector is valid but matches nothing: `null`
    | Invalid             // `#` alone is not a valid selector: the call throws

  predicate IsFragment(href: string)
  {
    |href| > 0 && href[0] == '#'
  }

  /**
   * Resolve a selector against the declared ids. Every selector the site passes
   * starts with `#`; anything else is treated as matching nothing.
   */
  function QuerySelector(selector: string, ids: set<string>): (r: Lookup)
    ensures r.Found? <==> IsFragment(selector) && |selector| > 1 && selector[1..] in ids
    ensures r.Found? ==> r.id in ids && selector == "#" + r.id
    ensures r.Invalid? <==> selector == "#"
  {
    if IsFragment(selector) then
      if |selector| == 1 then Invalid
      else if selector[1..] in ids then Found(selector[1..])
      else NotFound
    else NotFound
  }

  /** Resolution of the '#id' selectors of every declared section. */
  lemma DeclaredSectionsResolve(id: string)
    requires id in SectionIds
    ensures QuerySelector("#" + id, SectionIds) == Found(id)
  {
  }
}
