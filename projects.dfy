/**
 * The project table of the portfolio and its three queries: lookup by id,
 * the featured projects, and the projects of one category.
 */
module Projects {
  import opened Wrappers
  import opened Sequences

  datatype Status = Deployed | Prototype

  /** One screenshot of a project: an image path and its caption. */
  datatype Screenshot = Screenshot(src: string, alt: string)

  /** The fields of a project record that the queries and the gallery read. */
  datatype Project = Project(
    id: string,
    title: string,
    subtitle: string,
    status: Status,
    category: string,
    featured: bool,
    screenshots: seq<Screenshot>)

  /** The constant `projects` array, in its declared order. */
  const Table: seq<Project> := [
    Project("agriconnect", "Agri Connect", "Farmers Marketplace", Deployed, "mobile", true, [
      Screenshot("/Projects/AgriConnect/Home.jpg", "Home Screen"),
      Screenshot("/Projects/AgriConnect/Products.jpg", "Products Listing"),
      Screenshot("/Projects/AgriConnect/Order.jpg", "Order Management"),
      Screenshot("/Projects/AgriConnect/Profile.jpg", "User Profile")]),
    Project("examsprint", "Exam Sprint", "AI-Powered Study Assistant", Prototype, "mobile", true, [
      Screenshot("/Projects/ExamSprint/login.jpg", "Login Screen"),
      Screenshot("/Projects/ExamSprint/home.jpg", "Home Dashboard"),
      Screenshot("/Projects/ExamSprint/class.jpg", "Class Management"),
      Screenshot("/Projects/ExamSprint/ai.jpg", "AI Study Assistant")]),
    Project("skipsmart", "SkipSmart", "Attendance Bunk Calculator", Deployed, "mobile", false, [
      Screenshot("/Projects/SkipSmart/Login.jpg", "Login Screen"),
      Screenshot("/Projects/SkipSmart/Home.png", "Home Dashboard"),
      Screenshot("/Projects/SkipSmart/TimeTable.jpg", "Timetable View")])
  ]

  predicate HasId(id: string, p: Project) { p.id == id }

  predicate InCategory(category: string, p: Project) { p.category == category }

  /** The filter callback `project => project.category === category`. */
  function CategoryIs(category: string): Project -> bool
  {
    p => InCategory(category, p)
  }

  /** A category argument the source treats as "no filter": falsy or `'all'`. */
  predicate IsAll(category: Option<string>)
  {
    category.None? || category.value == "" || category.value == "all"
  }

  /** `projects.find(project => project.id === id)` over a table of projects. */
  function FindById(table: seq<Project>, id: string): (r: Option<Project>)
    ensures r.None? <==> forall k :: 0 <= k < |table| ==> table[k].id != id
    ensures r.Some? ==> r.value.id == id
    ensures r.Some? ==> exists i :: 0 <= i < |table| && table[i] == r.value && forall j :: 0 <= j < i ==> table[j].id != id
  {
    Find(table, p => HasId(id, p))
  }

  /** `projects.filter(project => project.featured)` over a table of projects. */
  function Featured(table: seq<Project>): (r: seq<Project>)
    ensures forall i :: 0 <= i < |r| ==> r[i].featured
    ensures forall p :: multiset(r)[p] == if p.featured then multiset(table)[p] else 0
    ensures IsSubsequence(r, table)
  {
    var featured := (p: Project) => p.featured;
    FilterIsSubsequence(table, featured);
    FilterCounts(table, featured);
    Filter(table, featured)
  }

  /**
   * The body of `getProjectsByCategory` over a table of projects. The argument
   * is `None` when it is undefined or null; like `''` it is falsy, and a falsy
   * or `'all'` category yields the whole table.
   */
  function ByCategory(table: seq<Project>, category: Option<string>): (r: seq<Project>)
    ensures IsAll(category) ==> r == table
    ensures !IsAll(category) ==> forall i :: 0 <= i < |r| ==> r[i].category == category.value
    ensures !IsAll(category) ==> forall p :: multiset(r)[p] == if p.category == category.value then multiset(table)[p] else 0
    ensures !IsAll(category) ==> IsSubsequence(r, table)
  {
    if IsAll(category) then table
    else
      FilterIsSubsequence(table, CategoryIs(category.value));
      FilterCounts(table, CategoryIs(category.value));
      Filter(table, CategoryIs(category.value))
  }

  /** `getProjectById` over the `projects` table. */
  function GetProjectById(id: string): Option<Project>
  {
    FindById(Table, id)
  }

  /** `getFeaturedProjects` over the `projects` table. */
  function GetFeaturedProjects(): seq<Project>
  {
    Featured(Table)
  }

  /** `getProjectsByCategory` over the `projects` table. */
  function GetProjectsByCategory(category: Option<string>): seq<Project>
  {
    ByCategory(Table, category)
  }

  /** The ids of the table are pairwise distinct. */
  lemma IdsDistinct()
    ensures forall i, j :: 0 <= i < j < |Table| ==> Table[i].id != Table[j].id
  {
  }

  /** Because ids are distinct, every listed project is found by its own id. */
  lemma LookupUnambiguous(k: nat)
    requires k < |Table|
    ensures GetProjectById(Table[k].id) == Some(Table[k])
  {
    IdsDistinct();
  }

  /** Filtering the result of a real category again by that category changes nothing. */
  lemma ByCategoryIdempotent(table: seq<Project>, category: Option<string>)
    requires !IsAll(category)
    ensures var r := ByCategory(table, category);
      Filter(r, CategoryIs(category.value)) == r
  {
    FilterAllPass(ByCategory(table, category), CategoryIs(category.value));
  }

  /** With the shown data every project is a mobile project. */
  lemma AllMobile()
    ensures forall k :: 0 <= k < |Table| ==> Table[k].category == "mobile"
  {
  }

  /** Hence the `'web'` filter of the Projects page is empty. */
  lemma NoWebProjects()
    ensures GetProjectsByCategory(Some("web")) == []
  {
    AllMobile();
    assert "web"[0] != "all"[0];
    FilterNonePass(Table, CategoryIs("web"));
  }

  /** Hence the `'ai'` filter of the Projects page is empty. */
  lemma NoAiProjects()
    ensures GetProjectsByCategory(Some("ai")) == []
  {
    AllMobile();
    FilterNonePass(Table, CategoryIs("ai"));
  }

  /** Hence the `'mobile'` filter of the Projects page is the whole table. */
  lemma MobileIsEverything()
    ensures GetProjectsByCategory(Some("mobile")) == Table
  {
    AllMobile();
    FilterAllPass(Table, CategoryIs("mobile"));
  }
}
