/**
 * The projects grid: a fixed list of projects, a row of filter buttons, and
 * the selection rule that decides which projects are shown. The key `all`
 * shows every project; any other key shows the projects of that category, in
 * their original order.
 */
module Projects {

  datatype Project = Project(
    id: nat,
    title: string,
    description: string,
    tech: seq<string>,
    link: string,
    category: string)

  datatype Filter = Filter(key: string, caption: string)

  /** The key of the filter that shows everything. */
  const AllKey: string := "all"

  const ProjectList: seq<Project> := [
    Project(1, "School Web",
      "I tried to make my own version of the SMKN 7 Semarang website",
      ["HTML", "CSS", "JavasScript"], "https://github.com/Iiboyy/School-Web", "web"),
    Project(2, "Aurora Hotel",
      "I created a hotel website that introduces the hotel so that guests can book a room.",
      ["HTML", "CSS", "JavasScript"], "https://github.com/Iiboyy/Aurora-Hotel", "web"),
    Project(3, "Jetbus 5 Adi Putro Bus Custom Interior",
      "I created the bus interior from scratch using Blender. The entire interior is incredibly detailed.",
      ["Blender"], "#", "3d"),
    Project(4, "MPGT Morodadi Prima Bus Interior",
      "I created the bus interior from scratch using Blender. The entire interior is incredibly detailed.",
      ["Blender"], "#", "3d")
  ]

  const Filters: seq<Filter> := [
    Filter("all", "All Projects"),
    Filter("web", "Web Development"),
    Filter("3d", "3D Design")
  ]

  /** `xs` is obtained from `ys` by deleting elements: same order, nothing new. */
  predicate IsSubsequence<T(==)>(xs: seq<T>, ys: seq<T>)
    decreases |ys|
  {
    if xs == [] then true
    else if ys == [] then false
    else if xs[0] == ys[0] then IsSubsequence(xs[1..], ys[1..])
    else IsSubsequence(xs, ys[1..])
  }

  /** The projects of one category, in list order (`Array.filter` on the category). */
  function SelectCategory(ps: seq<Project>, key: string): (r: seq<Project>)
    ensures forall p :: p in r ==> p in ps && p.category == key
    ensures forall p :: p in ps && p.category == key ==> p in r
    ensures IsSubsequence(r, ps)
    decreases |ps|
  {
    if ps == [] then []
    else
      assert ps == [ps[0]] + ps[1..];
      if ps[0].category == key then [ps[0]] + SelectCategory(ps[1..], key)
      else SelectCategory(ps[1..], key)
  }

  /** The projects shown while `activeFilter` is selected. */
  function FilteredProjects(ps: seq<Project>, activeFilter: string): (r: seq<Project>)
    ensures activeFilter == AllKey ==> r == ps
    ensures activeFilter != AllKey ==> forall p :: p in r ==> p.category == activeFilter
    ensures activeFilter != AllKey ==> forall p :: p in ps && p.category == activeFilter ==> p in r
    ensures IsSubsequence(r, ps)
  {
    if activeFilter == AllKey then
      SubsequenceRefl(ps);
      ps
    else SelectCategory(ps, activeFilter)
  }

  lemma {:induction false} SubsequenceRefl<T>(xs: seq<T>)
    ensures IsSubsequence(xs, xs)
    decreases |xs|
  {
    if xs != [] {
      SubsequenceRefl(xs[1..]);
    }
  }

  /** A key that no project carries selects nothing. */
  lemma UnknownKeyIsEmpty(ps: seq<Project>, key: string)
    requires key != AllKey
    requires forall p :: p in ps ==> p.category != key
    ensures FilteredProjects(ps, key) == []
  {
    SelectNone(ps, key);
  }

  lemma {:induction false} SelectNone(ps: seq<Project>, key: string)
    requires forall p :: p in ps ==> p.category != key
    ensures SelectCategory(ps, key) == []
    decreases |ps|
  {
    if ps != [] {
      assert ps[0] in ps;
      assert forall p :: p in ps[1..] ==> p in ps;
      SelectNone(ps[1..], key);
    }
  }

  /** Every project of the category is kept as often as it occurs, and no other project. */
  lemma {:induction false} SelectMultiplicity(ps: seq<Project>, key: string, p: Project)
    ensures multiset(SelectCategory(ps, key))[p] == if p.category == key then multiset(ps)[p] else 0
    decreases |ps|
  {
    if ps != [] {
      SelectMultiplicity(ps[1..], key, p);
      assert ps == [ps[0]] + ps[1..];
    }
  }

  /**
   * When every project is in one of two categories, the two filtered lists
   * together hold exactly the projects of the `all` list.
   */
  lemma {:induction false} SelectPartition(ps: seq<Project>, a: string, b: string)
    requires a != b
    requires forall p :: p in ps ==> p.category == a || p.category == b
    ensures multiset(SelectCategory(ps, a)) + multiset(SelectCategory(ps, b)) == multiset(ps)
    ensures |SelectCategory(ps, a)| + |SelectCategory(ps, b)| == |ps|
    decreases |ps|
  {
    if ps != [] {
      var rest := ps[1..];
      assert ps == [ps[0]] + rest;
      assert forall p :: p in rest ==> p in ps;
      SelectPartition(rest, a, b);
      var ra, rb := SelectCategory(rest, a), SelectCategory(rest, b);
      if ps[0].category == a {
        assert SelectCategory(ps, a) == [ps[0]] + ra;
        assert SelectCategory(ps, b) == rb;
      } else {
        assert SelectCategory(ps, a) == ra;
        assert SelectCategory(ps, b) == [ps[0]] + rb;
      }
    }
  }

  /** The project ids are distinct. */
  lemma DistinctIds()
    ensures forall i, j :: 0 <= i < j < |ProjectList| ==> ProjectList[i].id != ProjectList[j].id
  {
  }

  lemma WebProjects()
    ensures FilteredProjects(ProjectList, "web") == ProjectList[..2]
  {
  }

  lemma ThreeDProjects()
    ensures FilteredProjects(ProjectList, "3d") == ProjectList[2..]
  {
  }

  /** The web and 3D filters split the projects shown under `all`. */
  lemma WebAnd3dPartitionAll()
    ensures forall p :: p in ProjectList ==> p.category == "web" || p.category == "3d"
    ensures FilteredProjects(ProjectList, "web") + FilteredProjects(ProjectList, "3d")
            == FilteredProjects(ProjectList, AllKey)
  {
    WebProjects();
    ThreeDProjects();
    assert ProjectList[..2] + ProjectList[2..] == ProjectList;
  }

  /** Which filter buttons carry the `active` class while `activeFilter` is selected. */
  function ActiveMarks(filters: seq<Filter>, activeFilter: string): (marks: seq<bool>)
    ensures |marks| == |filters|
    ensures forall i :: 0 <= i < |filters| ==> (marks[i] <==> filters[i].key == activeFilter)
  {
    seq(|filters|, i requires 0 <= i < |filters| => filters[i].key == activeFilter)
  }

  /** Clicking a filter button selects that button's key. */
  function ClickFilter(activeFilter: string, f: Filter): (selected: string)
    ensures selected == f.key
  {
    f.key
  }

  function CountTrue(bs: seq<bool>): nat
  {
    if bs == [] then 0 else (if bs[0] then 1 else 0) + CountTrue(bs[1..])
  }

  /** No two filter buttons share a key. */
  predicate DistinctKeys(filters: seq<Filter>)
  {
    forall i, j :: 0 <= i < j < |filters| ==> filters[i].key != filters[j].key
  }

  lemma {:induction false} NoMarkWithoutKey(filters: seq<Filter>, key: string)
    requires forall i :: 0 <= i < |filters| ==> filters[i].key != key
    ensures CountTrue(ActiveMarks(filters, key)) == 0
    decreases |filters|
  {
    if filters != [] {
      NoMarkWithoutKey(filters[1..], key);
      assert ActiveMarks(filters, key)[1..] == ActiveMarks(filters[1..], key);
    }
  }

  /**
   * After clicking button `k` of a row whose keys are distinct, that button is
   * the one and only button marked active.
   */
  lemma {:induction false} ClickMarksExactlyOne(filters: seq<Filter>, activeFilter: string, k: nat)
    requires DistinctKeys(filters) && k < |filters|
    ensures ActiveMarks(filters, ClickFilter(activeFilter, filters[k]))[k]
    ensures CountTrue(ActiveMarks(filters, ClickFilter(activeFilter, filters[k]))) == 1
    decreases |filters|
  {
    var key := filters[k].key;
    var marks := ActiveMarks(filters, key);
    assert marks[1..] == ActiveMarks(filters[1..], key);
    if k == 0 {
      NoMarkWithoutKey(filters[1..], key);
    } else {
      ClickMarksExactlyOne(filters[1..], activeFilter, k - 1);
    }
  }

  /** The site's filter row has distinct keys, and `all` is its first button. */
  lemma FiltersWellFormed()
    ensures DistinctKeys(Filters)
    ensures Filters[0].key == AllKey
  {
  }
}
