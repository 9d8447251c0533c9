/**
 * The stored entities of the backend's data model as the roadmap controller and the
 * formatter see them: catalog skills, roadmaps, the links between a roadmap and a skill
 * (with their milestones and resources). Optional columns are `Option`s.
 */
module Records {
  import opened Wrappers

  /** A catalog skill. `skillType` is "hard" or "soft"; the category column may be null. */
  datatype Skill = Skill(id: string, name: string, description: string, skillType: string, category: Option<string>)

  /** One learning milestone of a link, kept in the link's JSON column. */
  datatype Milestone = Milestone(level: int, title: string, objectives: seq<string>, completed: bool)

  /** A learning resource attached to a link. */
  datatype Resource = Resource(id: string, resourceType: string, title: string, url: string,
                               platform: Option<string>, isFree: bool)

  /** A roadmap row; `creationDate` is a timestamp in milliseconds. */
  datatype Roadmap = Roadmap(id: string, userId: string, title: string, careerGoal: string,
                             experience: string, percentualProgress: int, creationDate: int)

  /**
   * A roadmap-skill link with the related catalog skill and, when loaded, its resources.
   * `milestones` is `None` when the JSON column does not hold an array; the nullable
   * columns are `None` when null.
   */
  datatype RoadmapLink = RoadmapLink(
    id: string,
    roadmapId: string,
    skill: Skill,
    order: int,
    isConcluded: bool,
    conclusionDate: Option<int>,
    milestones: Option<seq<Milestone>>,
    learningObjectives: Option<string>,
    prerequisites: seq<string>,
    estimatedHours: Option<int>,
    resources: Option<seq<Resource>>)
}
