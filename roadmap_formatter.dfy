/**
 * The backend's API shaping of roadmaps (`ResourceFormatter`, `RoadmapSkillFormatter`,
 * `RoadmapFormatter`): stored records become response objects with snake_case fields,
 * a status word derived from the completion flag and empty defaults for missing columns.
 */
module RoadmapFormatter {
  import opened Wrappers
  import opened Records

  /** `ApiSkillResource`. */
  datatype ApiResource = ApiResource(id: string, resourceType: string, title: string, url: string,
                                     platform: Option<string>, isFree: bool)

  /** `ApiRoadmapSkillSimple`. */
  datatype ApiSkillSimple = ApiSkillSimple(id: string, skillId: string, name: string, description: string,
                                           skillType: string, category: Option<string>, order: int,
                                           isConcluded: bool, conclusionDate: Option<int>)

  /** A prerequisite as the full view lists it. */
  datatype PrereqRef = PrereqRef(id: string, name: string)

  /** `ApiRoadmapSkillFull`: the simple fields, the roadmap id, the nested skill, the status
      word and the planning fields. */
  datatype ApiSkillFull = ApiSkillFull(
    id: string, roadmapId: string, skillId: string, name: string, description: string,
    skillType: string, category: Option<string>, skill: Skill, order: int, status: string,
    isConcluded: bool, conclusionDate: Option<int>, milestones: seq<Milestone>,
    learningObjectives: string, prerequisites: seq<PrereqRef>, estimatedHours: int,
    resources: seq<ApiResource>)

  /** `ApiRoadmap` without its skills. */
  datatype ApiRoadmapHeader = ApiRoadmapHeader(id: string, userId: string, title: string, careerGoal: string,
                                               experience: string, percentualProgress: int, creationDate: int)

  /** The skills of an `ApiRoadmap`, in one of the two views. */
  datatype ApiSkills = NoSkills | SimpleSkills(simple: seq<ApiSkillSimple>) | FullSkills(full: seq<ApiSkillFull>)

  datatype ApiRoadmap = ApiRoadmap(header: ApiRoadmapHeader, skills: ApiSkills)

  const Concluded: string := "concluido"
  const Pending: string := "pendente"

  /** `ResourceFormatter.toApi`: every field kept, `isFree` renamed. */
  function ResourceToApi(r: Resource): (a: ApiResource) {
    ApiResource(r.id, r.resourceType, r.title, r.url, r.platform, r.isFree)
  }

  /** Reading a stored resource back from its API shape: no field is lost. */
  function ResourceFromApi(a: ApiResource): (r: Resource) {
    Resource(a.id, a.resourceType, a.title, a.url, a.platform, a.isFree)
  }

  lemma {:induction false} ResourceRoundTrip(r: Resource)
    ensures ResourceFromApi(ResourceToApi(r)) == r
    ensures ResourceToApi(r).isFree == r.isFree
  {
  }

  /** `resources?.map(ResourceFormatter.toApi) || []`. */
  function ResourcesToApi(rs: Option<seq<Resource>>): (out: seq<ApiResource>)
    ensures rs.None? ==> out == []
    ensures rs.Some? ==> |out| == |rs.value| && forall k :: 0 <= k < |out| ==>
              ResourceFromApi(out[k]) == rs.value[k] && out[k].isFree == rs.value[k].isFree
  {
    match rs
    case None => []
    case Some(list) => seq(|list|, k requires 0 <= k < |list| => ResourceToApi(list[k]))
  }

  /** `RoadmapSkillFormatter.toApiSimple`. */
  function ToApiSimple(rs: RoadmapLink): (a: ApiSkillSimple) {
    ApiSkillSimple(rs.id, rs.skill.id, rs.skill.name, rs.skill.description, rs.skill.skillType,
                   rs.skill.category, rs.order, rs.isConcluded, rs.conclusionDate)
  }

  /** The status word: `concluido` for a concluded link, `pendente` otherwise. */
  function StatusOf(isConcluded: bool): (s: string)
    ensures s == Concluded <==> isConcluded
    ensures s == Pending <==> !isConcluded
  {
    if isConcluded then Concluded else Pending
  }

  /** `RoadmapSkillFormatter.toApiFull`. */
  function ToApiFull(rs: RoadmapLink, roadmapId: string, prerequisites: seq<PrereqRef>): (a: ApiSkillFull) {
    ApiSkillFull(rs.id, roadmapId, rs.skill.id, rs.skill.name, rs.skill.description, rs.skill.skillType,
                 rs.skill.category, rs.skill, rs.order, StatusOf(rs.isConcluded), rs.isConcluded,
                 rs.conclusionDate,
                 match rs.milestones case Some(ms) => ms case None => [],
                 match rs.learningObjectives case Some(o) => o case None => "",
                 prerequisites,
                 match rs.estimatedHours case Some(h) => h case None => 0,
                 ResourcesToApi(rs.resources))
  }

  /** The fields both views share. */
  function SimpleView(a: ApiSkillFull): ApiSkillSimple {
    ApiSkillSimple(a.id, a.skillId, a.name, a.description, a.skillType, a.category, a.order,
                   a.isConcluded, a.conclusionDate)
  }

  /** The full view extends the simple one: on the shared fields they agree. The simple view
      keeps `order` and the completion flag, and `skill_id` is the catalog skill's id. */
  lemma {:induction false} FullExtendsSimple(rs: RoadmapLink, roadmapId: string, prerequisites: seq<PrereqRef>)
    ensures SimpleView(ToApiFull(rs, roadmapId, prerequisites)) == ToApiSimple(rs)
    ensures ToApiSimple(rs).order == rs.order && ToApiSimple(rs).isConcluded == rs.isConcluded
    ensures ToApiSimple(rs).skillId == rs.skill.id
    ensures ToApiFull(rs, roadmapId, prerequisites).skill == rs.skill
  {
  }

  /** The status is `concluido` exactly for a concluded link; missing columns get their
      defaults: `[]` milestones unless the column holds an array, `''` objectives, 0 hours,
      `[]` resources; the prerequisites are the ones given. */
  lemma {:induction false} FullViewDefaults(rs: RoadmapLink, roadmapId: string, prerequisites: seq<PrereqRef>)
    ensures var a := ToApiFull(rs, roadmapId, prerequisites);
            && (a.status == Concluded <==> rs.isConcluded)
            && (a.status == Pending <==> !rs.isConcluded)
            && (rs.milestones.None? ==> a.milestones == [])
            && (rs.milestones.Some? ==> a.milestones == rs.milestones.value)
            && (rs.learningObjectives.None? ==> a.learningObjectives == "")
            && (rs.estimatedHours.None? ==> a.estimatedHours == 0)
            && (rs.resources.None? ==> a.resources == [])
            && (rs.resources.Some? ==> |a.resources| == |rs.resources.value|)
            && a.prerequisites == prerequisites && a.roadmapId == roadmapId
  {
  }

  /** `RoadmapFormatter.toApi`: the header fields, copied. */
  function RoadmapToApi(r: Roadmap): (h: ApiRoadmapHeader) {
    ApiRoadmapHeader(r.id, r.userId, r.title, r.careerGoal, r.experience, r.percentualProgress, r.creationDate)
  }

  /** `toApiWithSimpleSkills`: the header and one simple view per link, in link order. */
  function ToApiWithSimpleSkills(r: Roadmap, links: seq<RoadmapLink>): (a: ApiRoadmap)
    ensures a.header == RoadmapToApi(r) && a.skills.SimpleSkills?
    ensures |a.skills.simple| == |links|
    ensures forall k :: 0 <= k < |links| ==>
              a.skills.simple[k].id == links[k].id && a.skills.simple[k].order == links[k].order
              && a.skills.simple[k].isConcluded == links[k].isConcluded
  {
    ApiRoadmap(RoadmapToApi(r), SimpleSkills(seq(|links|, k requires 0 <= k < |links| => ToApiSimple(links[k]))))
  }

  /** `prerequisitesMap.get(id) || []`. */
  function PrerequisitesOf(prerequisitesMap: map<string, seq<PrereqRef>>, linkId: string): (p: seq<PrereqRef>)
    ensures linkId in prerequisitesMap ==> p == prerequisitesMap[linkId]
    ensures linkId !in prerequisitesMap ==> p == []
  {
    if linkId in prerequisitesMap then prerequisitesMap[linkId] else []
  }

  /** `toApiWithFullSkills`: the header and one full view per link, in link order; each link's
      prerequisites are the map's entry for its id, or `[]`. */
  function ToApiWithFullSkills(r: Roadmap, links: seq<RoadmapLink>, prerequisitesMap: map<string, seq<PrereqRef>>): (a: ApiRoadmap)
    ensures a.header == RoadmapToApi(r) && a.skills.FullSkills?
    ensures |a.skills.full| == |links|
    ensures forall k :: 0 <= k < |links| ==>
              && a.skills.full[k].id == links[k].id && a.skills.full[k].order == links[k].order
              && a.skills.full[k].roadmapId == r.id
              && (links[k].id in prerequisitesMap ==> a.skills.full[k].prerequisites == prerequisitesMap[links[k].id])
              && (links[k].id !in prerequisitesMap ==> a.skills.full[k].prerequisites == [])
  {
    ApiRoadmap(RoadmapToApi(r), FullSkills(seq(|links|, k requires 0 <= k < |links| =>
      ToApiFull(links[k], r.id, PrerequisitesOf(prerequisitesMap, links[k].id)))))
  }

  /** Both views agree on the shared fields of every link. */
  lemma {:induction false} ViewsAgree(r: Roadmap, links: seq<RoadmapLink>, prerequisitesMap: map<string, seq<PrereqRef>>)
    ensures var s := ToApiWithSimpleSkills(r, links);
            var f := ToApiWithFullSkills(r, links, prerequisitesMap);
            s.header == f.header && |s.skills.simple| == |f.skills.full|
            && forall k :: 0 <= k < |links| ==> SimpleView(f.skills.full[k]) == s.skills.simple[k]
  {
  }
}
