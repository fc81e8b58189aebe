/**
 * The project catalogue of the portfolio site: a fixed, read-only sequence of
 * project records and the three queries the pages use over it.
 */
module Projects {
  import opened Wrappers
  import opened StringOrder

  /** One highlighted feature of a project, shown in authored order. */
  datatype Feature = Feature(title: string, description: string)

  /** One portfolio case study; `slug` is its lookup key and `youtubeId` is optional. */
  datatype Project = Project(
    slug: string,
    title: string,
    summary: string,
    problem: string,
    solution: string,
    image: string,
    tags: seq<string>,
    features: seq<Feature>,
    youtubeId: Option<string>
  )

  /** The shipped catalogue. In the model the catalogue is a `const` value, so no query can change it. */
  const Catalogue: seq<Project> := [
    Project(
      "rehabilitation-program",
      "ACL Rehabilitation Program",
      "A comprehensive rehabilitation protocol designed for athletes recovering from ACL reconstruction surgery, focusing on progressive strength building, mobility restoration, and safe return to sport.",
      "Athletes recovering from ACL reconstruction often face challenges with inconsistent rehabilitation approaches, unclear progression criteria, and high re-injury rates due to premature return to sport.",
      "This program provides a structured, evidence-based rehabilitation protocol with clear progression milestones, objective testing criteria, and sport-specific training to ensure optimal recovery and minimize re-injury risk.",
      "/placeholder.svg?height=600&width=1200",
      ["Rehabilitation", "Sports Medicine", "Protocol"],
      [
        Feature("Phase-Based Progression",
          "Clearly defined rehabilitation phases with specific goals and criteria for advancement."),
        Feature("Objective Testing Protocols",
          "Standardized assessments to measure strength, stability, and functional performance."),
        Feature("Sport-Specific Training",
          "Customized exercises that replicate the demands of the athlete's specific sport."),
        Feature("Psychological Readiness",
          "Tools to assess and address psychological barriers to return to sport.")
      ],
      Some("dQw4w9WgXcQ")
    ),
    Project(
      "injury-prevention",
      "Injury Prevention Workshop",
      "An educational program designed for high school athletes to reduce injury risk through proper movement patterns, strength training, and recovery strategies.",
      "High school athletes often lack proper education on injury prevention, leading to higher rates of preventable injuries and potentially affecting their athletic development and long-term health.",
      "This workshop provides comprehensive education on biomechanics, movement screening, corrective exercises, and recovery strategies tailored specifically for adolescent athletes and their unique developmental needs.",
      "/placeholder.svg?height=600&width=1200",
      ["Education", "Prevention", "Youth"],
      [
        Feature("Movement Screening",
          "Assessment tools to identify movement deficiencies and injury risk factors."),
        Feature("Corrective Exercise Library",
          "Targeted exercises to address common movement dysfunctions in young athletes."),
        Feature("Coach Education",
          "Resources for coaches to implement injury prevention strategies in team practices."),
        Feature("Recovery Protocols",
          "Age-appropriate recovery strategies to prevent overtraining and burnout.")
      ],
      Some("dQw4w9WgXcQ")
    ),
    Project(
      "performance-analytics",
      "Performance Analytics Dashboard",
      "A data-driven approach to athlete monitoring and performance optimization, tracking key metrics to inform training decisions and maximize athletic potential.",
      "Coaches and athletic trainers often lack accessible, comprehensive data on athlete performance, making it difficult to make informed decisions about training loads, recovery needs, and performance optimization.",
      "This analytics dashboard aggregates data from multiple sources to provide actionable insights on athlete readiness, training response, and performance trends, enabling more personalized and effective training programs.",
      "/placeholder.svg?height=600&width=1200",
      ["Analytics", "Technology", "Performance"],
      [
        Feature("Readiness Monitoring",
          "Daily assessments of athlete readiness based on sleep, soreness, and subjective wellness metrics."),
        Feature("Load Management",
          "Tracking of acute and chronic training loads to optimize performance and reduce injury risk."),
        Feature("Performance Trending",
          "Visualization of key performance indicators over time to identify patterns and progress."),
        Feature("Customizable Metrics",
          "Ability to tailor tracked metrics to specific sports and individual athlete needs.")
      ],
      Some("dQw4w9WgXcQ")
    )
  ]

  /** No two records of `ps` share a slug. */
  predicate SlugsDistinct(ps: seq<Project>)
  {
    forall i, j :: 0 <= i < j < |ps| ==> ps[i].slug != ps[j].slug
  }

  /** `i` is the position of the first record of `ps` whose slug is `slug`. */
  ghost predicate FirstWithSlug(ps: seq<Project>, slug: string, i: int)
  {
    0 <= i < |ps| && ps[i].slug == slug && forall j :: 0 <= j < i ==> ps[j].slug != slug
  }

  /** `ps.find(p => p.slug === slug)`: scan in order, stop at the first match. */
  function FindBySlug(ps: seq<Project>, slug: string): (r: Option<Project>)
    ensures r.Some? ==> r.value.slug == slug && r.value in ps
    ensures r.None? <==> forall i :: 0 <= i < |ps| ==> ps[i].slug != slug
  {
    if |ps| == 0 then None
    else if ps[0].slug == slug then Some(ps[0])
    else FindBySlug(ps[1..], slug)
  }

  /** The lookup returns the first matching record in catalogue order. */
  lemma {:induction false} FindBySlugIsFirst(ps: seq<Project>, slug: string, i: int)
    requires FirstWithSlug(ps, slug, i)
    ensures FindBySlug(ps, slug) == Some(ps[i])
  {
    if i > 0 {
      assert ps[0].slug != slug;
      FindBySlugIsFirst(ps[1..], slug, i - 1);
    }
  }

  /** With distinct slugs, looking up a record's own slug yields that record. */
  lemma FindBySlugOfMember(ps: seq<Project>, i: int)
    requires SlugsDistinct(ps) && 0 <= i < |ps|
    ensures FindBySlug(ps, ps[i].slug) == Some(ps[i])
  {
    FindBySlugIsFirst(ps, ps[i].slug, i);
  }

  /** `getProjectBySlug`: the catalogue record with this slug, or `None` (never an error). */
  function GetProjectBySlug(slug: string): (r: Option<Project>)
    ensures r.Some? ==> r.value.slug == slug && r.value in Catalogue
    ensures r.None? <==> forall p :: p in Catalogue ==> p.slug != slug
  {
    FindBySlug(Catalogue, slug)
  }

  /** `getAllProjects`: the catalogue itself, every record of which its own slug resolves. */
  function GetAllProjects(): (r: seq<Project>)
    ensures r == Catalogue
    ensures forall i :: 0 <= i < |r| ==> GetProjectBySlug(r[i].slug) == Some(r[i])
  {
    CatalogueSlugsDistinct();
    forall i | 0 <= i < |Catalogue| ensures FindBySlug(Catalogue, Catalogue[i].slug) == Some(Catalogue[i]) {
      FindBySlugOfMember(Catalogue, i);
    }
    Catalogue
  }

  /** The shipped slugs are pairwise distinct. */
  lemma CatalogueSlugsDistinct()
    ensures SlugsDistinct(Catalogue)
  {
    assert Catalogue[0].slug[0] == 'r';
    assert Catalogue[1].slug[0] == 'i';
    assert Catalogue[2].slug[0] == 'p';
  }

  /** The record behind "rehabilitation-program", with its four features in authored order. */
  lemma RehabilitationProgramLookup()
    ensures GetProjectBySlug("rehabilitation-program").Some?
    ensures GetProjectBySlug("rehabilitation-program").value.title == "ACL Rehabilitation Program"
    ensures |GetProjectBySlug("rehabilitation-program").value.features| == 4
    ensures GetProjectBySlug("rehabilitation-program").value == Catalogue[0]
  {
  }

  /** The distinct elements of a sequence. */
  function Elements(s: seq<string>): set<string>
  {
    set x | x in s
  }

  /** The union of the tags of the records of `ps`. */
  function TagsOf(ps: seq<Project>): (r: set<string>)
    ensures forall i :: 0 <= i < |ps| ==> Elements(ps[i].tags) <= r
  {
    if ps == [] then {} else TagsOf(ps[..|ps| - 1]) + Elements(ps[|ps| - 1].tags)
  }

  /** A string is in `TagsOf(ps)` exactly when some record of `ps` carries it as a tag. */
  lemma {:induction false} TagsOfMeans(ps: seq<Project>, t: string)
    ensures t in TagsOf(ps) <==> exists p :: p in ps && t in p.tags
  {
    if ps != [] {
      var init := ps[..|ps| - 1];
      TagsOfMeans(init, t);
      assert ps == init + [ps[|ps| - 1]];
      if t in TagsOf(ps) && t !in TagsOf(init) {
        assert ps[|ps| - 1] in ps;
      }
      if p :| p in ps && t in p.tags {
        if p != ps[|ps| - 1] {
          assert p in init;
        }
      }
    }
  }

  /**
   * The nested `forEach` loops of `getAllTags` followed by `Array.from(tagsSet).sort()`:
   * every tag of every record, each once, in ascending order.
   */
  method CollectTags(ps: seq<Project>) returns (tags: seq<string>)
    ensures StrictlyAscending(tags)
    ensures forall t :: t in tags <==> t in TagsOf(ps)
    ensures forall t :: t in tags <==> exists p :: p in ps && t in p.tags
    ensures forall i, j :: 0 <= i < j < |tags| ==> tags[i] != tags[j]
    ensures |tags| == |TagsOf(ps)|
  {
    var tagsSet: set<string> := {};
    var i := 0;
    while i < |ps|
      invariant 0 <= i <= |ps|
      invariant tagsSet == TagsOf(ps[..i])
    {
      var project := ps[i];
      var k := 0;
      while k < |project.tags|
        invariant 0 <= k <= |project.tags|
        invariant tagsSet == TagsOf(ps[..i]) + Elements(project.tags[..k])
      {
        assert project.tags[..k + 1] == project.tags[..k] + [project.tags[k]];
        tagsSet := tagsSet + {project.tags[k]};
        k := k + 1;
      }
      assert project.tags[..k] == project.tags;
      assert ps[..i + 1][..i] == ps[..i];
      i := i + 1;
    }
    assert ps[..i] == ps;
    tags := AscendingElements(tagsSet);
    forall t ensures t in tags <==> exists p :: p in ps && t in p.tags {
      TagsOfMeans(ps, t);
    }
  }

  /** The nine tags of the shipped catalogue, in ascending order. */
  const ShippedTags: seq<string> := [
    "Analytics", "Education", "Performance", "Prevention", "Protocol",
    "Rehabilitation", "Sports Medicine", "Technology", "Youth"
  ]

  /** `getAllTags` over the shipped catalogue: exactly the nine tags, in order. */
  method GetAllTags() returns (tags: seq<string>)
    ensures tags == ShippedTags
  {
    tags := CollectTags(Catalogue);
    ShippedTagsAscending();
    CatalogueTags();
    AscendingIsUnique(tags, ShippedTags);
  }

  /** The nine expected tags are listed in strictly ascending order. */
  lemma ShippedTagsAscending()
    ensures StrictlyAscending(ShippedTags)
  {
    var s := ShippedTags;
    assert Before(s[0], s[1]) && Before(s[1], s[2]) && Before(s[2], s[3]) && Before(s[3], s[4]);
    assert Before(s[4], s[5]) && Before(s[5], s[6]) && Before(s[6], s[7]) && Before(s[7], s[8]);
    AscendingFromAdjacent(s);
  }

  /** The tags of the three shipped records are exactly the nine expected tags. */
  lemma CatalogueTags()
    ensures TagsOf(Catalogue) == Elements(ShippedTags)
  {
    TagsOfThree(Catalogue);
    assert Catalogue[0].tags == ["Rehabilitation", "Sports Medicine", "Protocol"];
    assert Catalogue[1].tags == ["Education", "Prevention", "Youth"];
    assert Catalogue[2].tags == ["Analytics", "Technology", "Performance"];
    forall t ensures t in TagsOf(Catalogue) <==> t in Elements(ShippedTags) {
      assert t in Elements(ShippedTags) <==> t in ShippedTags;
    }
  }

  /** For a three-record list, the tag union is the union of the three records' tags. */
  lemma TagsOfThree(ps: seq<Project>)
    requires |ps| == 3
    ensures TagsOf(ps) == Elements(ps[0].tags) + Elements(ps[1].tags) + Elements(ps[2].tags)
  {
    assert ps[..2][..1] == ps[..1] && ps[..1][..0] == [];
    assert TagsOf(ps[..1]) == Elements(ps[0].tags);
    assert TagsOf(ps[..2]) == Elements(ps[0].tags) + Elements(ps[1].tags);
  }
}
