/**
 * The skills data: categories of skills with a level (0 to 100 by the data's
 * own convention) and years of experience, the rounded average level of a
 * category, and the flat list of every skill tagged with its category.
 */
module Skills {
  import opened Wrappers

  datatype Skill = Skill(name: string, level: int, years: int, description: Option<string>)

  datatype SkillCategory = SkillCategory(id: string, title: string, icon: string, description: string, skills: seq<Skill>)

  const SkillCategories: seq<SkillCategory> := [
    SkillCategory("frontend", "Frontend", "Monitor", "Interfaces modernes et performantes", [
      Skill("React / Next.js", 95, 4, Some("SSR, App Router, Server Components")),
      Skill("TypeScript", 90, 3, Some("Types avancés, génériques, utility types")),
      Skill("Tailwind CSS", 95, 3, Some("Design systems, animations custom")),
      Skill("Framer Motion", 85, 2, Some("Animations complexes, gestures, layout animations")),
      Skill("Three.js / WebGL", 70, 1, Some("Scènes 3D, shaders basiques"))]),
    SkillCategory("backend", "Backend", "Server", "APIs robustes et scalables", [
      Skill("Node.js", 90, 4, Some("Express, Fastify, Hono")),
      Skill("Python", 75, 2, Some("FastAPI, scripts d'automatisation")),
      Skill("PostgreSQL", 85, 3, Some("Optimisation requêtes, indexes, migrations")),
      Skill("Prisma ORM", 90, 2, Some("Schémas, relations, migrations")),
      Skill("GraphQL", 80, 2, Some("Apollo, schema-first design"))]),
    SkillCategory("devops", "DevOps & Tools", "Settings", "Déploiement et automatisation", [
      Skill("Docker", 80, 2, Some("Containerisation, docker-compose")),
      Skill("Git / GitHub", 95, 5, Some("Branching strategies, CI/CD, Actions")),
      Skill("Vercel / Railway", 90, 3, Some("Déploiement, preview deployments")),
      Skill("n8n / Automatisation", 75, 1, Some("Workflows, intégrations API"))]),
    SkillCategory("soft", "Soft Skills", "Users", "Au-delà du code", [
      Skill("Communication", 90, 5, Some("Vulgarisation technique, documentation")),
      Skill("Travail d'équipe", 95, 5, Some("Code reviews, pair programming, mentorat")),
      Skill("Résolution de problèmes", 90, 5, Some("Debugging, architecture, trade-offs")),
      Skill("Veille technologique", 85, 5, Some("Curiosité, adaptabilité, apprentissage continu"))])
  ]

  /** `Array.prototype.find` on the id: the first category with that id, if any. */
  function Find(cats: seq<SkillCategory>, id: string): (r: Option<SkillCategory>)
    ensures r.None? <==> forall i :: 0 <= i < |cats| ==> cats[i].id != id
    ensures r.Some? ==> exists i :: && 0 <= i < |cats| && cats[i] == r.value && r.value.id == id
                                    && forall j :: 0 <= j < i ==> cats[j].id != id
    decreases |cats|
  {
    if cats == [] then None
    else if cats[0].id == id then Some(cats[0])
    else
      var r := Find(cats[1..], id);
      assert forall i :: 1 <= i < |cats| ==> cats[i] == cats[1..][i - 1];
      r
  }

  /** The `reduce` that adds up the levels. */
  function SumLevels(skills: seq<Skill>): (sum: int)
    decreases |skills|
  {
    if skills == [] then 0 else skills[0].level + SumLevels(skills[1..])
  }

  /** JavaScript's `Math.round` on a finite number: the nearest integer, halves rounded up. */
  function Round(x: real): (n: int)
    ensures n as real - 0.5 <= x < n as real + 0.5
  {
    (x + 0.5).Floor
  }

  /** A number result that may be JavaScript's `NaN` (what 0 / 0 gives). */
  datatype Average = Number(value: int) | NaN

  /**
   * `getCategoryAverageLevel` over a list of categories: 0 for an unknown id,
   * `NaN` exactly for a found category without skills, and otherwise the
   * integer within one half of the found category's mean level.
   */
  function CategoryAverageLevel(cats: seq<SkillCategory>, id: string): (a: Average)
    ensures Find(cats, id).None? ==> a == Number(0)
    ensures a.NaN? <==> Find(cats, id).Some? && |Find(cats, id).value.skills| == 0
    ensures Find(cats, id).Some? && |Find(cats, id).value.skills| > 0 ==>
              var c := Find(cats, id).value;
              var mean := SumLevels(c.skills) as real / |c.skills| as real;
              a.Number? && a.value as real - 0.5 <= mean < a.value as real + 0.5
  {
    match Find(cats, id)
    case None => Number(0)
    case Some(c) =>
      if |c.skills| == 0 then NaN
      else Number(Round(SumLevels(c.skills) as real / |c.skills| as real))
  }

  /** `getCategoryAverageLevel` on the shipped data: never `NaN`, and always within 0..100. */
  function GetCategoryAverageLevel(id: string): (a: Average)
    ensures a.Number? && 0 <= a.value <= 100
  {
    ShippedAverageInRange(id);
    CategoryAverageLevel(SkillCategories, id)
  }

  /** Every category of the shipped data has skills with levels within 0..100, so every average is a number within 0..100. */
  lemma ShippedAverageInRange(id: string)
    ensures var a := CategoryAverageLevel(SkillCategories, id);
            a.Number? && 0 <= a.value <= 100
  {
    var cats := SkillCategories;
    match Find(cats, id)
    case None =>
    case Some(c) =>
      var i :| 0 <= i < |cats| && cats[i] == c && c.id == id && forall j :: 0 <= j < i ==> cats[j].id != id;
      ShippedSkills();
      AverageOfFoundCategory(cats, i);
  }

  predicate LevelsInRange(skills: seq<Skill>) {
    forall i :: 0 <= i < |skills| ==> 0 <= skills[i].level <= 100
  }

  lemma {:induction false} SumLevelsBounds(skills: seq<Skill>)
    requires LevelsInRange(skills)
    ensures 0 <= SumLevels(skills) <= 100 * |skills|
    decreases |skills|
  {
    if skills != [] {
      assert LevelsInRange(skills[1..]) by {
        forall i | 0 <= i < |skills| - 1 ensures 0 <= skills[1..][i].level <= 100 {
          assert skills[1..][i] == skills[i + 1];
        }
      }
      SumLevelsBounds(skills[1..]);
    }
  }

  /** An id no category has gives 0. */
  lemma UnknownCategoryIsZero(cats: seq<SkillCategory>, id: string)
    requires forall i :: 0 <= i < |cats| ==> cats[i].id != id
    ensures CategoryAverageLevel(cats, id) == Number(0)
  {
  }

  /**
   * A found category with skills gives its mean level rounded half up: the
   * result is within one half of the mean, and within 0..100 when every level is.
   */
  lemma AverageOfFoundCategory(cats: seq<SkillCategory>, i: int)
    requires 0 <= i < |cats| && |cats[i].skills| > 0
    requires forall j :: 0 <= j < i ==> cats[j].id != cats[i].id
    ensures var a := CategoryAverageLevel(cats, cats[i].id);
            var mean := SumLevels(cats[i].skills) as real / |cats[i].skills| as real;
            && a.Number?
            && a.value as real - 0.5 <= mean < a.value as real + 0.5
            && (LevelsInRange(cats[i].skills) ==> 0 <= a.value <= 100)
  {
    var c := cats[i];
    var r := Find(cats, c.id);
    assert r == Some(c) by {
      var k :| 0 <= k < |cats| && cats[k] == r.value && r.value.id == c.id && forall j :: 0 <= j < k ==> cats[j].id != c.id;
      assert k == i;
    }
    if LevelsInRange(c.skills) {
      SumLevelsBounds(c.skills);
      var n := |c.skills| as real;
      var mean := SumLevels(c.skills) as real / n;
      assert 0.0 <= mean <= 100.0 by {
        assert SumLevels(c.skills) as real <= 100.0 * n;
      }
    }
  }

  lemma SumOfFour(s: seq<Skill>)
    requires |s| == 4
    ensures SumLevels(s) == s[0].level + s[1].level + s[2].level + s[3].level
  {
    var s1 := s[1..];
    var s2 := s1[1..];
    var s3 := s2[1..];
    assert s3[1..] == [];
    assert SumLevels(s3) == s[3].level;
    assert SumLevels(s2) == s[2].level + s[3].level;
    assert SumLevels(s1) == s[1].level + s[2].level + s[3].level;
  }

  lemma SumOfFive(s: seq<Skill>)
    requires |s| == 5
    ensures SumLevels(s) == s[0].level + SumLevels(s[1..])
    ensures SumLevels(s[1..]) == s[1].level + s[2].level + s[3].level + s[4].level
  {
    SumOfFour(s[1..]);
  }

  /** `find` returns the category at `i` when no earlier category has its id. */
  lemma {:induction false} FindFirst(cats: seq<SkillCategory>, i: int)
    requires 0 <= i < |cats|
    requires forall j :: 0 <= j < i ==> cats[j].id != cats[i].id
    ensures Find(cats, cats[i].id) == Some(cats[i])
    decreases i
  {
    if i > 0 {
      assert cats[0].id != cats[i].id;
      var rest := cats[1..];
      assert rest[i - 1] == cats[i];
      forall j | 0 <= j < i - 1 ensures rest[j].id != rest[i - 1].id {
        assert rest[j] == cats[j + 1];
      }
      FindFirst(rest, i - 1);
    }
  }

  lemma ShippedIds()
    ensures |SkillCategories| == 4
    ensures SkillCategories[0].id == "frontend" && SkillCategories[1].id == "backend"
    ensures SkillCategories[2].id == "devops" && SkillCategories[3].id == "soft"
  {
  }

  lemma ShippedSums()
    ensures |SkillCategories[0].skills| == 5 && SumLevels(SkillCategories[0].skills) == 435
    ensures |SkillCategories[1].skills| == 5 && SumLevels(SkillCategories[1].skills) == 420
    ensures |SkillCategories[2].skills| == 4 && SumLevels(SkillCategories[2].skills) == 340
    ensures |SkillCategories[3].skills| == 4 && SumLevels(SkillCategories[3].skills) == 360
  {
    SumOfFive(SkillCategories[0].skills);
    SumOfFive(SkillCategories[1].skills);
    SumOfFour(SkillCategories[2].skills);
    SumOfFour(SkillCategories[3].skills);
  }

  /** The average of a category found at `i`, given its sum and size. */
  lemma AverageAt(i: int, sum: int, n: int, avg: int)
    requires 0 <= i < |SkillCategories| && 0 < n
    requires forall j :: 0 <= j < i ==> SkillCategories[j].id != SkillCategories[i].id
    requires |SkillCategories[i].skills| == n && SumLevels(SkillCategories[i].skills) == sum
    requires Round(sum as real / n as real) == avg
    ensures GetCategoryAverageLevel(SkillCategories[i].id) == Number(avg)
  {
    FindFirst(SkillCategories, i);
  }

  lemma FrontendAverage()
    ensures GetCategoryAverageLevel("frontend") == Number(87)
  {
    ShippedIds();
    ShippedSums();
    assert Round(435.0 / 5.0) == 87;
    AverageAt(0, 435, 5, 87);
  }

  lemma BackendAverage()
    ensures GetCategoryAverageLevel("backend") == Number(84)
  {
    ShippedIds();
    ShippedSums();
    assert Round(420.0 / 5.0) == 84;
    AverageAt(1, 420, 5, 84);
  }

  lemma DevopsAverage()
    ensures GetCategoryAverageLevel("devops") == Number(85)
  {
    ShippedIds();
    ShippedSums();
    assert Round(340.0 / 4.0) == 85;
    AverageAt(2, 340, 4, 85);
  }

  lemma SoftAverage()
    ensures GetCategoryAverageLevel("soft") == Number(90)
  {
    ShippedIds();
    ShippedSums();
    assert Round(360.0 / 4.0) == 90;
    AverageAt(3, 360, 4, 90);
  }

  /** The shipped averages: 87, 84, 85 and 90. */
  lemma ShippedAverages()
    ensures GetCategoryAverageLevel("frontend") == Number(87)
    ensures GetCategoryAverageLevel("backend") == Number(84)
    ensures GetCategoryAverageLevel("devops") == Number(85)
    ensures GetCategoryAverageLevel("soft") == Number(90)
  {
    FrontendAverage();
    BackendAverage();
    DevopsAverage();
    SoftAverage();
  }

  /** One entry of `getAllSkills`: the skill's fields plus its category's id and title. */
  datatype FlatSkill = FlatSkill(name: string, level: int, years: int, description: Option<string>, category: string, categoryTitle: string)

  function Tag(c: SkillCategory, s: Skill): (f: FlatSkill) {
    FlatSkill(s.name, s.level, s.years, s.description, c.id, c.title)
  }

  /** The `map` over one category's skills. */
  function TagAll(c: SkillCategory): (r: seq<FlatSkill>)
    ensures |r| == |c.skills|
  {
    seq(|c.skills|, i requires 0 <= i < |c.skills| => Tag(c, c.skills[i]))
  }

  function TotalSkills(cats: seq<SkillCategory>): (n: nat)
    decreases |cats|
  {
    if cats == [] then 0 else |cats[0].skills| + TotalSkills(cats[1..])
  }

  /** The `flatMap` of `getAllSkills` over a list of categories. */
  function AllSkills(cats: seq<SkillCategory>): (r: seq<FlatSkill>)
    ensures |r| == TotalSkills(cats)
    decreases |cats|
  {
    if cats == [] then [] else TagAll(cats[0]) + AllSkills(cats[1..])
  }

  /** `getAllSkills` on the shipped data. */
  function GetAllSkills(): (r: seq<FlatSkill>) {
    AllSkills(SkillCategories)
  }

  /**
   * Category by category, in order: skill `j` of category `c` sits right
   * after all the skills of the categories before `c`, with its own fields and
   * the id and title of `c`.
   */
  lemma {:induction false} AllSkillsAt(cats: seq<SkillCategory>, c: int, j: int)
    requires 0 <= c < |cats| && 0 <= j < |cats[c].skills|
    ensures TotalSkills(cats[..c]) + j < |AllSkills(cats)|
    ensures AllSkills(cats)[TotalSkills(cats[..c]) + j] == Tag(cats[c], cats[c].skills[j])
    decreases c
  {
    if c == 0 {
      assert cats[..0] == [];
    } else {
      var rest := cats[1..];
      assert cats[..c] == [cats[0]] + rest[..c - 1];
      assert TotalSkills(cats[..c]) == |cats[0].skills| + TotalSkills(rest[..c - 1]) by {
        assert ([cats[0]] + rest[..c - 1])[1..] == rest[..c - 1];
      }
      AllSkillsAt(rest, c - 1, j);
    }
  }

  /** The shipped data: 18 skills in all, every level within 0..100 and every category non-empty, so no average is `NaN`. */
  lemma ShippedSkills()
    ensures |GetAllSkills()| == 18
    ensures forall c :: 0 <= c < |SkillCategories| ==> |SkillCategories[c].skills| > 0 && LevelsInRange(SkillCategories[c].skills)
  {
    var cats := SkillCategories;
    assert cats[1..][1..][1..][1..] == [];
  }
}
