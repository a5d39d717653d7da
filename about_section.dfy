/**
 * The about section's constant tables (skill categories and expertise
 * cards) and the rules that turn a skill into a row of the skill matrix.
 * What is proved is that the tables agree with the legend printed under the
 * matrix, "Proficient (80%+)" and "Learning (50-70%)", and with the way
 * their fields are used as bar widths and React keys.
 */
module About {

  datatype Skill = Skill(name: string, level: int, status: string)

  datatype SkillCategory = SkillCategory(category: string, color: string, skills: seq<Skill>)

  datatype ExpertiseCard = ExpertiseCard(title: string, description: string, color: string)

  const ProficientStatus: string := "proficient"
  const LearningStatus: string := "learning"

  const SkillCategories: seq<SkillCategory> := [
    SkillCategory("Frontend Frameworks", "cyber-cyan", [
      Skill("React", 90, "proficient"),
      Skill("Next.js", 85, "proficient")
    ]),
    SkillCategory("Backend Frameworks", "cyber-green", [
      Skill("Django", 90, "proficient"),
      Skill("REST APIs", 88, "proficient"),
      Skill("Node.js/Express", 60, "learning")
    ]),
    SkillCategory("Web3 & Blockchain", "cyber-purple", [
      Skill("Solana", 85, "proficient"),
      Skill("ICP", 85, "proficient"),
      Skill("Ethereum", 55, "learning")
    ]),
    SkillCategory("Cybersecurity", "cyber-pink", [
      Skill("Secure Coding", 88, "proficient"),
      Skill("Web Application Testing", 85, "proficient"),
      Skill("Web3 Security", 60, "learning"),
      Skill("Cryptography", 58, "learning")
    ]),
    SkillCategory("Databases", "cyber-orange", [
      Skill("SQL", 90, "proficient"),
      Skill("PostgreSQL", 88, "proficient"),
      Skill("MongoDB", 55, "learning")
    ]),
    SkillCategory("Programming Languages", "cyber-cyan", [
      Skill("Python", 92, "proficient"),
      Skill("JavaScript", 90, "proficient"),
      Skill("Rust", 85, "proficient")
    ])
  ]

  const Expertise: seq<ExpertiseCard> := [
    ExpertiseCard("Frontend Development", "React, Next.js, TypeScript, Modern UI/UX", "cyber-cyan"),
    ExpertiseCard("Backend Development", "Django, REST APIs, PostgreSQL, Node.js", "cyber-green"),
    ExpertiseCard("Web3 & Blockchain", "Solana, ICP, Smart Contracts, Ethereum", "cyber-purple"),
    ExpertiseCard("Cybersecurity", "Secure Coding, Web Testing, Security Audits", "cyber-pink")
  ]

  /** The level is usable as a bar width percentage. */
  predicate IsPercentage(s: Skill) {
    0 <= s.level <= 100
  }

  /** The status is one of the two the legend explains, and the level lies in that status's band. */
  predicate MatchesLegend(s: Skill) {
    && (s.status == ProficientStatus || s.status == LearningStatus)
    && (s.status == ProficientStatus ==> s.level >= 80)
    && (s.status == LearningStatus ==> 50 <= s.level <= 70)
  }

  /** Every skill of every category satisfies `P`. */
  predicate AllSkills(cats: seq<SkillCategory>, P: Skill -> bool) {
    forall c, k :: 0 <= c < |cats| && 0 <= k < |cats[c].skills| ==> P(cats[c].skills[k])
  }

  /** No two skills of `skills` share a name (skill names are React keys within a category). */
  predicate SkillNamesDistinct(skills: seq<Skill>) {
    forall i, j :: 0 <= i < j < |skills| ==> skills[i].name != skills[j].name
  }

  /** No two categories share a name (category names are React keys). */
  predicate CategoryNamesDistinct(cats: seq<SkillCategory>) {
    forall i, j :: 0 <= i < j < |cats| ==> cats[i].category != cats[j].category
  }

  /** No two expertise cards share a title (titles are React keys). */
  predicate TitlesDistinct(cards: seq<ExpertiseCard>) {
    forall i, j :: 0 <= i < j < |cards| ==> cards[i].title != cards[j].title
  }

  /** One row of the skill matrix as it is drawn. */
  datatype SkillRow = SkillRow(caption: string, learningBadge: bool, percentText: int, barWidth: int, barOpacity: real)

  /**
   * The row for `s`: the "Learning" badge appears and the bar is dimmed to
   * 0.7 exactly for a learning skill; the bar is as wide as the printed
   * percentage.
   */
  function RenderSkill(s: Skill): (row: SkillRow)
    ensures row.caption == s.name
    ensures row.learningBadge <==> s.status == LearningStatus
    ensures row.barOpacity == (if s.status == LearningStatus then 0.7 else 1.0)
    ensures row.barWidth == row.percentText == s.level
  {
    var learning := s.status == LearningStatus;
    SkillRow(s.name, learning, s.level, s.level, if learning then 0.7 else 1.0)
  }

  /**
   * For a skill that agrees with the legend the dimmed bars are exactly
   * the ones at 70% or less, and every bar at full opacity is at 80% or more.
   */
  lemma DimmedExactlyBelowEighty(s: Skill)
    requires MatchesLegend(s)
    ensures RenderSkill(s).barOpacity == 0.7 <==> s.level <= 70
    ensures RenderSkill(s).barOpacity == 1.0 ==> s.level >= 80
  {
  }

  /** The skill table agrees with the legend, and every level fits a bar. */
  lemma SkillTableMatchesLegend()
    ensures AllSkills(SkillCategories, MatchesLegend)
    ensures AllSkills(SkillCategories, IsPercentage)
  {
  }

  /** The category names, the skill names within each category, and the expertise titles are all distinct. */
  lemma KeysDistinct()
    ensures CategoryNamesDistinct(SkillCategories)
    ensures forall c :: 0 <= c < |SkillCategories| ==> SkillNamesDistinct(SkillCategories[c].skills)
    ensures TitlesDistinct(Expertise)
  {
  }
}
