/** The service table of the portfolio and its lookup by id. */
module Services {
  import opened Wrappers
  import opened Sequences

  datatype Service = Service(id: string, icon: string, title: string, techStack: seq<string>)

  /** The constant `services` array, in its declared order. */
  const Table: seq<Service> := [
    Service("web-development", "webDev", "Web Development", ["React", "Next.js", "Node.js", "MongoDB"]),
    Service("mobile-apps", "mobile", "Mobile Applications", ["Flutter", "React Native", "Firebase"]),
    Service("ai-ml", "ai", "AI / ML Projects", ["Python", "TensorFlow", "OpenAI", "Gemini"]),
    Service("backend-systems", "backend", "Backend Systems", ["Node.js", "Python", "PostgreSQL", "AWS"]),
    Service("academic-projects", "academic", "Academic Projects", ["Full Stack", "Documentation", "Deployment"]),
    Service("ui-ux", "design", "UI/UX Design", ["Figma", "Prototyping", "Design Systems"])
  ]

  /** The find callback `service => service.id === id`. */
  function IdIs(id: string): Service -> bool
  {
    (s: Service) => s.id == id
  }

  /** `services.find(service => service.id === id)` over a table of services. */
  function FindById(table: seq<Service>, id: string): (r: Option<Service>)
    ensures r.None? <==> forall k :: 0 <= k < |table| ==> table[k].id != id
    ensures r.Some? ==> r.value.id == id
    ensures r.Some? ==> exists i :: 0 <= i < |table| && table[i] == r.value && forall j :: 0 <= j < i ==> table[j].id != id
  {
    Find(table, IdIs(id))
  }

  /** `getServiceById` over the `services` table. */
  function GetServiceById(id: string): Option<Service>
  {
    FindById(Table, id)
  }

  /** The table holds six services whose ids are pairwise distinct. */
  lemma TableShape()
    ensures |Table| == 6
    ensures forall i, j :: 0 <= i < j < |Table| ==> Table[i].id != Table[j].id
  {
    assert Table[1].id[0] != Table[5].id[0];
  }

  /** Every listed service is found by its own id. */
  lemma {:induction false} LookupListed(k: nat)
    requires k < |Table|
    ensures GetServiceById(Table[k].id) == Some(Table[k])
  {
    TableShape();
    var r := GetServiceById(Table[k].id);
    var i :| 0 <= i < |Table| && Table[i] == r.value && forall j :: 0 <= j < i ==> Table[j].id != Table[k].id;
  }

  /** For example, `'ai-ml'` is the third entry. */
  lemma AiMlLookup()
    ensures GetServiceById("ai-ml") == Some(Table[2])
  {
    var ai := Table[2];
    assert ai.id == "ai-ml";
    LookupListed(2);
  }
}
