/**
 * The projects data: the portfolio's list of projects, the featured
 * projects, the projects of one category, and the category tabs.
 * Both helpers keep exactly the projects their condition selects, in
 * their original order.
 */
module Projects {
  import opened Wrappers

  datatype Category = Fullstack | Frontend | Backend | Mobile | Other

  /** The name a category carries in the data and in the tab ids. */
  function CategoryName(c: Category): (r: string)
    ensures r != "all"
  {
    match c
    case Fullstack => "fullstack"
    case Frontend => "frontend"
    case Backend => "backend"
    case Mobile => "mobile"
    case Other => "other"
  }

  datatype Links = Links(github: Option<string>, live: Option<string>, npm: Option<string>, demo: Option<string>)

  datatype Project = Project(
    id: string, title: string, description: string, image: string,
    tags: seq<string>, links: Links, featured: bool, category: Category)

  const Github := "https://github.com/mohamedx2"

  const AllProjects: seq<Project> := [
    Project("baraqex", "Baraqex",
      "Modern JavaScript & TypeScript full-stack framework focused on performance (PFE).",
      "/projects/baraqex.png", ["TypeScript", "WASM", "Go", "SSR", "Compiler"],
      Links(Some(Github), Some("https://baraqex.tech"), Some("https://www.npmjs.com/package/baraqex"), None),
      true, Fullstack),
    Project("coffre-fort", "Coffre-Fort Documentaire",
      "Enterprise-grade document management system with local AI processing.",
      "/projects/coffre-fort.png", ["AI", "Ollama", "Docker", "Node.js", "Security"],
      Links(Some(Github), None, None, None),
      true, Fullstack),
    Project("whiteboard-saas", "Collaborative Whiteboard",
      "60 FPS real-time collaborative tool with undo/redo and Redis caching.",
      "/projects/whiteboard.png", ["Socket.io", "Redis", "PostgreSQL", "Event Sourcing"],
      Links(Some(Github), None, None, None),
      true, Fullstack),
    Project("n8n-generator", "N8N Project Generator",
      "AI tool converting natural language into ready-to-run n8n workflows.",
      "/projects/n8n-gen.png", ["AI", "n8n", "Automation", "Ollama", "Docker"],
      Links(Some(Github), None, None, None),
      true, Backend),
    Project("ecommerce", "Modern E-Commerce",
      "Production-ready solution with inventory management and analytics.",
      "/projects/ecommerce.png", ["Next.js", "Stripe", "Auth", "Dashboard"],
      Links(Some(Github), Some("https://ecommerce-ruddy-psi.vercel.app"), None, None),
      true, Fullstack),
    Project("dbgo", "DBGO",
      "Lightweight database engine implemented in Go with ACID support.",
      "/projects/dbgo.png", ["Go", "Database", "ACID", "Backend"],
      Links(Some(Github), Some("https://dbgo.vercel.app"), None, None),
      true, Backend),
    Project("hamroun-express", "hamroun-express",
      "Minimal backend framework inspired by Express.js for learning internals.",
      "/projects/express.png", ["Node.js", "Framework", "HTTP", "Internals"],
      Links(Some("https://github.com/mohamedx2/hamroun-express"), None, None, None),
      false, Backend),
    Project("online-compiler", "Online Compiler (French Syntax)",
      "Educational compiler translating French pseudocode into C.",
      "/projects/compiler-fr.png", ["Compiler", "C", "Logic", "Flask"],
      Links(Some(Github), Some("https://online-compiler-flask.onrender.com"), None, None),
      false, Backend)
  ]

  /** `Array.prototype.filter`: the elements that satisfy `keep`, in order. */
  function Filter<T>(s: seq<T>, keep: T -> bool): (r: seq<T>)
    ensures |r| <= |s|
    ensures forall i :: 0 <= i < |r| ==> keep(r[i])
  {
    if |s| == 0 then []
    else if keep(s[0]) then [s[0]] + Filter(s[1..], keep)
    else Filter(s[1..], keep)
  }

  /** `r` can be obtained from `s` by deleting elements. */
  predicate IsSubsequence<T(==)>(r: seq<T>, s: seq<T>)
    decreases |s|
  {
    if |r| == 0 then true
    else if |s| == 0 then false
    else if r[0] == s[0] then IsSubsequence(r[1..], s[1..])
    else IsSubsequence(r, s[1..])
  }

  lemma {:induction false} SubsequenceNoLonger<T>(r: seq<T>, s: seq<T>)
    requires IsSubsequence(r, s)
    ensures |r| <= |s|
    decreases |s|
  {
    if |r| > 0 {
      if r[0] == s[0] {
        SubsequenceNoLonger(r[1..], s[1..]);
      } else {
        SubsequenceNoLonger(r, s[1..]);
      }
    }
  }

  /** The kept elements keep their original order. */
  lemma {:induction false} FilterIsSubsequence<T>(s: seq<T>, keep: T -> bool)
    ensures IsSubsequence(Filter(s, keep), s)
    decreases |s|
  {
    if |s| > 0 {
      FilterIsSubsequence(s[1..], keep);
      var rest := Filter(s[1..], keep);
      if keep(s[0]) {
        assert ([s[0]] + rest)[1..] == rest;
      } else {
        assert |rest| > 0 ==> keep(rest[0]);
      }
    }
  }

  /** Each kept value appears as often as in the input; a dropped one never. */
  lemma {:induction false} FilterCount<T>(s: seq<T>, keep: T -> bool, x: T)
    ensures multiset(Filter(s, keep))[x] == if keep(x) then multiset(s)[x] else 0
    decreases |s|
  {
    if |s| > 0 {
      FilterCount(s[1..], keep, x);
      assert s == [s[0]] + s[1..];
      assert multiset(s) == multiset([s[0]]) + multiset(s[1..]);
      if keep(s[0]) {
        assert multiset(Filter(s, keep)) == multiset([s[0]]) + multiset(Filter(s[1..], keep));
      }
    }
  }

  function Featured(ps: seq<Project>): (r: seq<Project>)
    ensures |r| <= |ps|
    ensures forall i :: 0 <= i < |r| ==> r[i].featured
  {
    Filter(ps, (p: Project) => p.featured)
  }

  function InCategory(ps: seq<Project>, c: Category): (r: seq<Project>)
    ensures |r| <= |ps|
    ensures forall i :: 0 <= i < |r| ==> r[i].category == c
  {
    Filter(ps, (p: Project) => p.category == c)
  }

  /**
   * `getFeaturedProjects`: exactly the featured projects, each as often as
   * in the list, in the list's order.
   */
  lemma FeaturedExactly(ps: seq<Project>)
    ensures IsSubsequence(Featured(ps), ps)
    ensures forall p :: p in Featured(ps) ==> p.featured
    ensures forall p :: multiset(Featured(ps))[p] == if p.featured then multiset(ps)[p] else 0
  {
    FilterIsSubsequence(ps, (p: Project) => p.featured);
    forall p ensures multiset(Featured(ps))[p] == if p.featured then multiset(ps)[p] else 0 {
      FilterCount(ps, (p: Project) => p.featured, p);
    }
  }

  /**
   * `getProjectsByCategory`: exactly the projects of category `c`, each as
   * often as in the list, in the list's order.
   */
  lemma InCategoryExactly(ps: seq<Project>, c: Category)
    ensures IsSubsequence(InCategory(ps, c), ps)
    ensures forall p :: p in InCategory(ps, c) ==> p.category == c
    ensures forall p :: multiset(InCategory(ps, c))[p] == if p.category == c then multiset(ps)[p] else 0
  {
    FilterIsSubsequence(ps, (p: Project) => p.category == c);
    forall p ensures multiset(InCategory(ps, c))[p] == if p.category == c then multiset(ps)[p] else 0 {
      FilterCount(ps, (p: Project) => p.category == c, p);
    }
  }

  function GetFeaturedProjects(): (r: seq<Project>) {
    Featured(AllProjects)
  }

  function GetProjectsByCategory(c: Category): (r: seq<Project>) {
    InCategory(AllProjects, c)
  }

  /** Every project sits in exactly one category: the tabs share out the list. */
  lemma CategoriesPartition(ps: seq<Project>, p: Project)
    ensures multiset(InCategory(ps, Fullstack))[p] + multiset(InCategory(ps, Frontend))[p]
          + multiset(InCategory(ps, Backend))[p] + multiset(InCategory(ps, Mobile))[p]
          + multiset(InCategory(ps, Other))[p] == multiset(ps)[p]
  {
    InCategoryExactly(ps, Fullstack);
    InCategoryExactly(ps, Frontend);
    InCategoryExactly(ps, Backend);
    InCategoryExactly(ps, Mobile);
    InCategoryExactly(ps, Other);
  }

  /** A list none of whose elements is kept comes back empty. */
  lemma {:induction false} FilterKeepsNone<T>(s: seq<T>, keep: T -> bool)
    requires forall i :: 0 <= i < |s| ==> !keep(s[i])
    ensures Filter(s, keep) == []
    decreases |s|
  {
    if |s| > 0 {
      FilterKeepsNone(s[1..], keep);
    }
  }

  function Ids(ps: seq<Project>): (r: seq<string>)
    ensures |r| == |ps|
    ensures forall i :: 0 <= i < |ps| ==> r[i] == ps[i].id
  {
    if |ps| == 0 then [] else [ps[0].id] + Ids(ps[1..])
  }

  predicate Distinct(xs: seq<string>) {
    forall i, j :: 0 <= i < j < |xs| ==> xs[i] != xs[j]
  }

  /** Featured flag and category of each shipped project, by position. */
  lemma ShippedShape()
    ensures |AllProjects| == 8
    ensures forall i :: 0 <= i < 6 ==> AllProjects[i].featured
    ensures forall i :: 6 <= i < 8 ==> !AllProjects[i].featured
    ensures forall i :: 0 <= i < 8 ==> AllProjects[i].category != Frontend
  {
  }

  /** The first letters of the shipped ids, by position. */
  lemma ShippedInitials()
    ensures |AllProjects| == 8
    ensures forall i :: 0 <= i < 8 ==> |AllProjects[i].id| > 0 && AllProjects[i].id[0] == "bcwnedho"[i]
  {
  }

  lemma InitialsDistinct()
    ensures forall i, j :: 0 <= i < j < 8 ==> "bcwnedho"[i] != "bcwnedho"[j]
  {
  }

  /** The project ids are unique: their first letters already differ. */
  lemma ShippedIdsUnique()
    ensures Distinct(Ids(AllProjects))
  {
    ShippedInitials();
    InitialsDistinct();
    var ids := Ids(AllProjects);
    forall i, j | 0 <= i < j < |ids| ensures ids[i] != ids[j] {
      assert ids[i][0] != ids[j][0];
    }
  }

  /** No shipped project is "frontend", so that tab shows nothing. */
  lemma NoFrontendProjects()
    ensures GetProjectsByCategory(Frontend) == []
  {
    var keep := (p: Project) => p.category == Frontend;
    ShippedShape();
    assert forall i :: 0 <= i < |AllProjects| ==> !keep(AllProjects[i]);
    FilterKeepsNone(AllProjects, keep);
  }

  /** When exactly the first `k` elements are kept, the filter is that prefix. */
  lemma {:induction false} FilterKeepsPrefix<T>(s: seq<T>, k: int, keep: T -> bool)
    requires 0 <= k <= |s|
    requires forall i :: 0 <= i < k ==> keep(s[i])
    requires forall i :: k <= i < |s| ==> !keep(s[i])
    ensures Filter(s, keep) == s[..k]
    decreases k
  {
    if k == 0 {
      FilterKeepsNone(s, keep);
    } else {
      var rest := s[1..];
      forall i | 0 <= i < k - 1 ensures keep(rest[i]) {
        assert rest[i] == s[i + 1];
      }
      forall i | k - 1 <= i < |rest| ensures !keep(rest[i]) {
        assert rest[i] == s[i + 1];
      }
      FilterKeepsPrefix(rest, k - 1, keep);
      assert keep(s[0]);
      assert [s[0]] + rest[..k - 1] == s[..k];
    }
  }

  /** The first six shipped projects are featured and the last two are not. */
  lemma ShippedFeatured()
    ensures GetFeaturedProjects() == AllProjects[..6]
    ensures |GetFeaturedProjects()| == 6
  {
    var keep := (p: Project) => p.featured;
    ShippedShape();
    assert forall i :: 0 <= i < 6 ==> keep(AllProjects[i]);
    assert forall i :: 6 <= i < |AllProjects| ==> !keep(AllProjects[i]);
    FilterKeepsPrefix(AllProjects, 6, keep);
  }

  /** One tab of the projects section: "all" or a category name. `caption` is the source's `label`, a reserved word in Dafny. */
  datatype Tab = Tab(id: string, caption: string)

  const ProjectCategories: seq<Tab> := [
    Tab("all", "Tous"), Tab("fullstack", "Full-Stack"),
    Tab("frontend", "Frontend"), Tab("backend", "Backend")
  ]

  /** The category a tab id names, if any; "all" names none. */
  function TabCategory(id: string): (r: Option<Category>)
    ensures r.Some? ==> CategoryName(r.value) == id
    ensures r.None? ==> forall c :: CategoryName(c) != id
  {
    if id == "fullstack" then Some(Fullstack)
    else if id == "frontend" then Some(Frontend)
    else if id == "backend" then Some(Backend)
    else if id == "mobile" then Some(Mobile)
    else if id == "other" then Some(Other)
    else None
  }

  /** Every tab after "all" names a category; there is no tab for mobile or other. */
  lemma ShippedTabs()
    ensures ProjectCategories[0].id == "all" && TabCategory(ProjectCategories[0].id) == None
    ensures forall i :: 1 <= i < |ProjectCategories| ==> TabCategory(ProjectCategories[i].id).Some?
    ensures forall t :: t in ProjectCategories ==> t.id != CategoryName(Mobile) && t.id != CategoryName(Other)
  {
  }
}
