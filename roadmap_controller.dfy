/**
 * Roadmap creation in the backend's roadmap controller: the plain `createRoadmap`
 * endpoint and the `generateCompleteRoadmap` pipeline, which reconciles the skill names a
 * text-generation service returns with the user's selected catalog skills, merges the
 * per-skill enrichment data, resolves prerequisite names to ids, numbers the links and
 * fills in defaults.
 *
 * The external calls are parameters: the catalog as the database returns it (already
 * ordered by type, category and name), whether a service key is configured, and the
 * outcome of each of the two service stages. The result is the roadmap the controller
 * writes, with the HTTP status it answers, or the status and message of a refusal.
 */
module RoadmapController {
  import opened Wrappers
  import opened Seqs
  import opened Text
  import opened JsonParser
  import opened Records

  // ---------------------------------------------------------------------------
  // Inputs and outputs
  // ---------------------------------------------------------------------------

  /** The body of `POST /api/roadmaps/generate-complete`. A missing text field is "";
      `selectedSkillIds` is `None` when the field is missing or not an array. */
  datatype GenerateRequest = GenerateRequest(careerGoal: string, experience: string, selectedSkillIds: Option<seq<string>>)

  /** One skill of the ordering reply. A missing name is `None`; a missing, null or zero
      `estimated_hours` is 0; missing prerequisites are []; a missing description is "". */
  datatype PlannedSkill = PlannedSkill(name: Option<string>, description: string, estimatedHours: int, prerequisites: seq<string>)

  /** The parsed ordering reply: a title ("" when missing) and the skills array (`None` when missing). */
  datatype OrderingReply = OrderingReply(titulo: string, skills: Option<seq<PlannedSkill>>)

  /** A resource of the enrichment reply. A missing type is ""; a missing `is_free` is `None`. */
  datatype ResourceInput = ResourceInput(title: string, url: string, resourceType: string, platform: Option<string>, isFree: Option<bool>)

  /** One entry of the enrichment reply's `skills_data`; missing lists are []. */
  datatype SkillData = SkillData(skillName: Option<string>, resources: seq<ResourceInput>, milestones: seq<Milestone>)

  /** The parsed enrichment reply; `skillsData` is `None` when the array is missing. */
  datatype BatchReply = BatchReply(skillsData: Option<seq<SkillData>>)

  /** A selected catalog skill after reconciliation, with the planning fields attached. */
  datatype OrganizedSkill = OrganizedSkill(skill: Skill, estimatedHours: int, prerequisites: seq<string>, learningObjectives: string)

  /** An organised skill with the resources and milestones of the enrichment stage. */
  datatype EnrichedSkill = EnrichedSkill(org: OrganizedSkill, resources: seq<ResourceInput>, milestones: seq<Milestone>)

  /** The planning columns of a link; links written without them get the database defaults. */
  datatype LinkDetails = LinkDetails(milestones: seq<Milestone>, learningObjectives: string, prerequisites: seq<string>, estimatedHours: int)

  /** One roadmap-skill link to create. */
  datatype LinkCreate = LinkCreate(skillId: string, order: nat, isConcluded: bool, details: Option<LinkDetails>)

  /** One resource row to create, for the link of the catalog skill `skillId`. */
  datatype ResourceRow = ResourceRow(skillId: string, resourceType: string, title: string, url: string, platform: Option<string>, isFree: bool)

  /** The roadmap the controller writes, with its links and resource rows. */
  datatype RoadmapCreate = RoadmapCreate(title: string, careerGoal: string, experience: string, percentualProgress: int,
                                         links: seq<LinkCreate>, resources: seq<ResourceRow>)

  /** What the endpoint answers: a refusal with status and message, or the written roadmap. */
  datatype Reply = Rejected(status: nat, message: string) | Written(status: nat, roadmap: RoadmapCreate)

  const GoalRequired: string := "Meta de carreira e nível de experiência são obrigatórios"
  const SelectionRequired: string := "Pelo menos uma skill deve ser selecionada"
  const NoValidSkill: string := "Nenhuma skill válida foi selecionada"
  const GenerationFailed: string := "Erro ao gerar roadmap completo"
  const EmptyAiResponse: string := "Empty AI response"
  const DefaultHours: nat := 20
  const DefaultResourceType: string := "article"

  /** The default title: "Trilha: " followed by the career goal. */
  function TitleFor(careerGoal: string): (title: string)
    ensures |title| == 8 + |careerGoal| && title[..8] == "Trilha: " && title[8..] == careerGoal
  {
    "Trilha: " + careerGoal
  }

  // ---------------------------------------------------------------------------
  // Selection from the catalog
  // ---------------------------------------------------------------------------

  /** `allSkills.filter(s => ids.includes(s.id))`: exactly the catalog entries named in the request. */
  function SelectFromCatalog(catalog: seq<Skill>, ids: seq<string>): (r: seq<Skill>)
    ensures |r| <= |catalog|
    ensures forall s :: s in r <==> s in catalog && s.id in ids
  {
    if catalog == [] then []
    else (if catalog[0].id in ids then [catalog[0]] else []) + SelectFromCatalog(catalog[1..], ids)
  }

  /** Selection keeps the catalog's order: selecting from a concatenation concatenates the selections. */
  lemma {:induction false} SelectionKeepsCatalogOrder(a: seq<Skill>, b: seq<Skill>, ids: seq<string>)
    ensures SelectFromCatalog(a + b, ids) == SelectFromCatalog(a, ids) + SelectFromCatalog(b, ids)
  {
    if a == [] {
      assert a + b == b;
    } else {
      assert (a + b)[0] == a[0];
      assert (a + b)[1..] == a[1..] + b;
      SelectionKeepsCatalogOrder(a[1..], b, ids);
    }
  }

  // ---------------------------------------------------------------------------
  // Reconciliation of generated names with the selected skills
  // ---------------------------------------------------------------------------

  /** `a?.toLowerCase() === b?.toLowerCase()` for two present names. */
  predicate SameName(a: string, b: string) {
    ToLower(a) == ToLower(b)
  }

  /** The index of the first selected skill at or after `from` whose name equals `name` case-insensitively. */
  function FirstNameMatch(selected: seq<Skill>, name: string, from: nat): (i: Option<nat>)
    ensures i.Some? ==> from <= i.value < |selected| && SameName(selected[i.value].name, name)
    ensures i.Some? ==> forall j :: from <= j < i.value ==> !SameName(selected[j].name, name)
    ensures i.None? ==> forall j :: from <= j < |selected| ==> !SameName(selected[j].name, name)
    decreases |selected| - from
  {
    if from >= |selected| then None
    else if SameName(selected[from].name, name) then Some(from)
    else FirstNameMatch(selected, name, from + 1)
  }

  /** `selectedSkills.find(...)`: the first selected skill with that name; an absent name matches nothing. */
  function MatchByName(selected: seq<Skill>, name: Option<string>): (m: Option<Skill>)
    ensures m.Some? ==> m.value in selected && name.Some? && SameName(m.value.name, name.value)
    ensures name.Some? && (exists j :: 0 <= j < |selected| && SameName(selected[j].name, name.value)) ==> m.Some?
  {
    if name.None? then None
    else match FirstNameMatch(selected, name.value, 0)
      case None => None
      case Some(i) => Some(selected[i])
  }

  /** Matching only looks at the lower-cased name. */
  lemma {:induction false} FirstNameMatchByLowerCase(selected: seq<Skill>, a: string, b: string, from: nat)
    requires SameName(a, b)
    ensures FirstNameMatch(selected, a, from) == FirstNameMatch(selected, b, from)
    decreases |selected| - from
  {
    if from < |selected| && !SameName(selected[from].name, a) {
      FirstNameMatchByLowerCase(selected, a, b, from + 1);
    }
  }

  /** The organised skill built from a match (`estimated_hours || 20`, `prerequisites || []`,
      `description || ''`): the hours are never 0, and any other value, negative ones included,
      is kept. */
  function Organize(c: Skill, x: PlannedSkill): (o: OrganizedSkill)
    ensures o.skill == c && o.prerequisites == x.prerequisites && o.learningObjectives == x.description
    ensures o.estimatedHours != 0
    ensures x.estimatedHours == 0 ==> o.estimatedHours == DefaultHours
    ensures x.estimatedHours != 0 ==> o.estimatedHours == x.estimatedHours
  {
    OrganizedSkill(c, if x.estimatedHours == 0 then DefaultHours else x.estimatedHours, x.prerequisites, x.description)
  }

  /** The catalog ids of a list of organised skills. */
  function SkillIds(os: seq<OrganizedSkill>): (r: seq<string>)
    ensures |r| == |os| && forall k :: 0 <= k < |os| ==> r[k] == os[k].skill.id
  {
    seq(|os|, k requires 0 <= k < |os| => os[k].skill.id)
  }

  /**
   * The `skillsMap` the controller accumulates over the generated skills, as a list in
   * insertion order: a generated skill whose name matches a selected skill is added unless
   * that skill's id is already present.
   */
  function Reconciled(selected: seq<Skill>, planned: seq<PlannedSkill>): (out: seq<OrganizedSkill>)
    decreases |planned|
  {
    if planned == [] then []
    else
      var prev := Reconciled(selected, planned[..|planned| - 1]);
      var x := planned[|planned| - 1];
      match MatchByName(selected, x.name)
      case None => prev
      case Some(c) => if c.id in SkillIds(prev) then prev else prev + [Organize(c, x)]
  }

  /** The `forEach` over the generated skills with the `has`/`set` test on `skillsMap`. */
  method ReconcileSkills(selected: seq<Skill>, planned: seq<PlannedSkill>) returns (out: seq<OrganizedSkill>)
    ensures out == Reconciled(selected, planned)
  {
    out := [];
    var seen: set<string> := {};
    var i := 0;
    while i < |planned|
      invariant 0 <= i <= |planned|
      invariant out == Reconciled(selected, planned[..i])
      invariant forall id :: id in seen <==> id in SkillIds(out)
    {
      assert planned[..i + 1][..i] == planned[..i];
      var matched := MatchByName(selected, planned[i].name);
      if matched.Some? && matched.value.id !in seen {
        assert SkillIds(out + [Organize(matched.value, planned[i])]) == SkillIds(out) + [matched.value.id];
        out := out + [Organize(matched.value, planned[i])];
        seen := seen + {matched.value.id};
      }
      i := i + 1;
    }
    assert planned[..|planned|] == planned;
  }

  /** The generated skill `x` matches a selected skill with id `id`. */
  predicate MatchesId(selected: seq<Skill>, x: PlannedSkill, id: string) {
    MatchByName(selected, x.name).Some? && MatchByName(selected, x.name).value.id == id
  }

  /** `o` was built from the generated skill at index `i`, the first one matching its skill's id. */
  ghost predicate FirstOrigin(selected: seq<Skill>, planned: seq<PlannedSkill>, i: int, o: OrganizedSkill) {
    && 0 <= i < |planned|
    && MatchByName(selected, planned[i].name) == Some(o.skill)
    && o == Organize(o.skill, planned[i])
    && forall j :: 0 <= j < i ==> !MatchesId(selected, planned[j], o.skill.id)
  }

  /** Every generated name that matches a selected skill has that skill in the result. */
  lemma {:induction false} ReconciledComplete(selected: seq<Skill>, planned: seq<PlannedSkill>)
    ensures forall i :: 0 <= i < |planned| && MatchByName(selected, planned[i].name).Some? ==>
              MatchByName(selected, planned[i].name).value.id in SkillIds(Reconciled(selected, planned))
    decreases |planned|
  {
    if planned != [] {
      var p := planned[..|planned| - 1];
      ReconciledComplete(selected, p);
      var prev := Reconciled(selected, p);
      var out := Reconciled(selected, planned);
      assert forall id :: id in SkillIds(prev) ==> id in SkillIds(out) by {
        forall id | id in SkillIds(prev) ensures id in SkillIds(out) {
          var k :| 0 <= k < |prev| && SkillIds(prev)[k] == id;
          assert out[k] == prev[k];
          assert SkillIds(out)[k] == id;
        }
      }
      forall i | 0 <= i < |planned| && MatchByName(selected, planned[i].name).Some?
        ensures MatchByName(selected, planned[i].name).value.id in SkillIds(out)
      {
        if i < |p| {
          assert planned[i] == p[i];
        } else if MatchByName(selected, planned[i].name).value.id !in SkillIds(prev) {
          assert SkillIds(out)[|prev|] == out[|prev|].skill.id;
        }
      }
    }
  }

  /** `o` is a selected skill built from the first generated skill naming it. */
  ghost predicate Originated(selected: seq<Skill>, planned: seq<PlannedSkill>, o: OrganizedSkill) {
    o.skill in selected && exists i :: FirstOrigin(selected, planned, i, o)
  }

  /** Every reconciled skill comes from the first generated skill naming it: a selected skill,
      matched case-insensitively, with that skill's planning fields. */
  lemma {:induction false} ReconciledOrigin(selected: seq<Skill>, planned: seq<PlannedSkill>)
    ensures forall k :: 0 <= k < |Reconciled(selected, planned)| ==>
              Originated(selected, planned, Reconciled(selected, planned)[k])
    decreases |planned|
  {
    if planned != [] {
      var p := planned[..|planned| - 1];
      ReconciledOrigin(selected, p);
      ReconciledComplete(selected, p);
      var prev := Reconciled(selected, p);
      var out := Reconciled(selected, planned);
      forall k | 0 <= k < |out| ensures Originated(selected, planned, out[k]) {
        if k < |prev| {
          assert out[k] == prev[k];
          assert Originated(selected, p, prev[k]);
          var i :| FirstOrigin(selected, p, i, prev[k]);
          assert planned[i] == p[i];
          assert forall j :: 0 <= j < i ==> planned[j] == p[j];
          assert FirstOrigin(selected, planned, i, out[k]);
        } else {
          var n := |planned| - 1;
          var c := MatchByName(selected, planned[n].name).value;
          assert out[k] == Organize(c, planned[n]);
          forall j | 0 <= j < n ensures !MatchesId(selected, planned[j], c.id) {
            assert planned[j] == p[j];
          }
          assert FirstOrigin(selected, planned, n, out[k]);
        }
      }
    }
  }

  /** No catalog skill appears twice in `os`. */
  predicate DistinctSkills(os: seq<OrganizedSkill>) {
    forall j, k :: 0 <= j < k < |os| ==> os[j].skill.id != os[k].skill.id
  }

  /** No selected skill appears twice. */
  lemma {:induction false} ReconciledDistinct(selected: seq<Skill>, planned: seq<PlannedSkill>)
    ensures DistinctSkills(Reconciled(selected, planned))
    decreases |planned|
  {
    if planned != [] {
      var p := planned[..|planned| - 1];
      ReconciledDistinct(selected, p);
      var prev := Reconciled(selected, p);
      var out := Reconciled(selected, planned);
      var x := planned[|planned| - 1];
      if out != prev {
        var c := MatchByName(selected, x.name).value;
        assert out == prev + [Organize(c, x)] && c.id !in SkillIds(prev);
        forall j, k | 0 <= j < k < |out| ensures out[j].skill.id != out[k].skill.id {
          assert out[j] == prev[j];
          if k == |prev| {
            assert SkillIds(prev)[j] == prev[j].skill.id;
            assert out[k].skill == c;
          } else {
            assert out[k] == prev[k];
          }
        }
      }
    }
  }

  /** Skills already placed are never moved: the result for a prefix of the generated list is a
      prefix of the result for the whole list, so the output is in first-appearance order. */
  lemma {:induction false} ReconciledPrefix(selected: seq<Skill>, a: seq<PlannedSkill>, b: seq<PlannedSkill>)
    ensures var front := Reconciled(selected, a);
            var whole := Reconciled(selected, a + b);
            |front| <= |whole| && whole[..|front|] == front
    decreases |b|
  {
    if b == [] {
      assert a + b == a;
    } else {
      var b' := b[..|b| - 1];
      ReconciledPrefix(selected, a, b');
      assert (a + b)[..|a + b| - 1] == a + b';
    }
  }

  /** The first generated skill naming a selected skill determines that skill's entry. */
  lemma {:induction false} FirstOccurrenceWins(selected: seq<Skill>, planned: seq<PlannedSkill>, i: nat, c: Skill)
    requires i < |planned| && MatchByName(selected, planned[i].name) == Some(c)
    requires forall j :: 0 <= j < i ==> !MatchesId(selected, planned[j], c.id)
    ensures Organize(c, planned[i]) in Reconciled(selected, planned)
  {
    var front := planned[..i];
    ReconciledOrigin(selected, front);
    var prev := Reconciled(selected, front);
    assert c.id !in SkillIds(prev) by {
      forall k | 0 <= k < |prev| ensures prev[k].skill.id != c.id {
        assert Originated(selected, front, prev[k]);
        var o :| FirstOrigin(selected, front, o, prev[k]);
        assert front[o] == planned[o];
      }
    }
    assert planned[..i + 1][..i] == front;
    ReconciledPrefix(selected, planned[..i + 1], planned[i + 1..]);
    assert planned[..i + 1] + planned[i + 1..] == planned;
    var whole := Reconciled(selected, planned);
    assert whole[|prev|] == Organize(c, planned[i]);
  }

  /** The result is empty exactly when no generated name matches a selected skill. */
  lemma {:induction false} ReconciledEmptyIff(selected: seq<Skill>, planned: seq<PlannedSkill>)
    ensures Reconciled(selected, planned) == [] <==>
            forall i :: 0 <= i < |planned| ==> MatchByName(selected, planned[i].name).None?
  {
    ReconciledComplete(selected, planned);
    ReconciledOrigin(selected, planned);
    var out := Reconciled(selected, planned);
    if out != [] {
      assert Originated(selected, planned, out[0]);
      var i :| FirstOrigin(selected, planned, i, out[0]);
    }
  }

  /** Names in the result are pairwise different even ignoring case: two of them would have
      matched the same (first) selected skill. */
  lemma {:induction false} ReconciledNamesDistinct(selected: seq<Skill>, planned: seq<PlannedSkill>)
    ensures var out := Reconciled(selected, planned);
            forall j, k :: 0 <= j < k < |out| ==> !SameName(out[j].skill.name, out[k].skill.name)
  {
    ReconciledOrigin(selected, planned);
    ReconciledDistinct(selected, planned);
    var out := Reconciled(selected, planned);
    forall j, k | 0 <= j < k < |out| ensures !SameName(out[j].skill.name, out[k].skill.name) {
      assert Originated(selected, planned, out[j]) && Originated(selected, planned, out[k]);
      var a :| FirstOrigin(selected, planned, a, out[j]);
      var b :| FirstOrigin(selected, planned, b, out[k]);
      var na, nb := planned[a].name.value, planned[b].name.value;
      if SameName(out[j].skill.name, out[k].skill.name) {
        FirstNameMatchByLowerCase(selected, na, nb, 0);
        assert false;
      }
    }
  }

  // ---------------------------------------------------------------------------
  // Enrichment with resources and milestones
  // ---------------------------------------------------------------------------

  /** The index of the first `skills_data` entry at or after `from` whose name equals `name` case-insensitively. */
  function FirstDataMatch(data: seq<SkillData>, name: string, from: nat): (i: Option<nat>)
    ensures i.Some? ==> from <= i.value < |data| && data[i.value].skillName.Some?
                        && SameName(data[i.value].skillName.value, name)
    ensures i.Some? ==> forall j :: from <= j < i.value ==> data[j].skillName.None? || !SameName(data[j].skillName.value, name)
    ensures i.None? ==> forall j :: from <= j < |data| ==> data[j].skillName.None? || !SameName(data[j].skillName.value, name)
    decreases |data| - from
  {
    if from >= |data| then None
    else if data[from].skillName.Some? && SameName(data[from].skillName.value, name) then Some(from)
    else FirstDataMatch(data, name, from + 1)
  }

  /** The organised skill with the data of the first matching `skills_data` entry, or with empty
      lists when there is none, when the array is missing, or when the stage failed. */
  function EnrichOne(o: OrganizedSkill, batch: Result<BatchReply, string>): (r: EnrichedSkill)
    ensures r.org == o
    ensures batch.Failure? || batch.value.skillsData.None? ==> r.resources == [] && r.milestones == []
    ensures r.resources != [] || r.milestones != [] ==>
              && batch.Success? && batch.value.skillsData.Some?
              && exists j :: 0 <= j < |batch.value.skillsData.value|
                   && batch.value.skillsData.value[j].skillName.Some?
                   && SameName(batch.value.skillsData.value[j].skillName.value, o.skill.name)
                   && r.resources == batch.value.skillsData.value[j].resources
                   && r.milestones == batch.value.skillsData.value[j].milestones
  {
    if batch.Failure? || batch.value.skillsData.None? then EnrichedSkill(o, [], [])
    else match FirstDataMatch(batch.value.skillsData.value, o.skill.name, 0)
      case None => EnrichedSkill(o, [], [])
      case Some(i) =>
        var d := batch.value.skillsData.value[i];
        EnrichedSkill(o, d.resources, d.milestones)
  }

  /** `skillsWithResources`: every organised skill, in the same order, with its enrichment. */
  function Enrich(organized: seq<OrganizedSkill>, batch: Result<BatchReply, string>): (r: seq<EnrichedSkill>)
    ensures |r| == |organized| && forall k :: 0 <= k < |r| ==> r[k].org == organized[k]
  {
    seq(|organized|, k requires 0 <= k < |organized| => EnrichOne(organized[k], batch))
  }

  /** A failed enrichment stage leaves every skill without resources and milestones. */
  lemma {:induction false} EnrichmentFailureLeavesListsEmpty(organized: seq<OrganizedSkill>, message: string)
    ensures var r := Enrich(organized, Failure(message));
            forall k :: 0 <= k < |r| ==> r[k].resources == [] && r[k].milestones == []
  {
  }

  /** A skill takes its lists from the first entry whose name equals its own case-insensitively. */
  lemma {:induction false} EnrichmentTakesFirstMatch(organized: seq<OrganizedSkill>, data: seq<SkillData>, k: nat, i: nat)
    requires k < |organized| && i < |data|
    requires data[i].skillName.Some? && SameName(data[i].skillName.value, organized[k].skill.name)
    requires forall j :: 0 <= j < i ==> data[j].skillName.None? || !SameName(data[j].skillName.value, organized[k].skill.name)
    ensures var r := Enrich(organized, Success(BatchReply(Some(data))));
            r[k].resources == data[i].resources && r[k].milestones == data[i].milestones
  {
    var m := FirstDataMatch(data, organized[k].skill.name, 0);
    if m.None? {
      assert false;
    } else if m.value != i {
      assert false;
    }
  }

  /** A skill that no entry names gets empty lists. */
  lemma {:induction false} EnrichmentWithoutMatchIsEmpty(organized: seq<OrganizedSkill>, data: seq<SkillData>, k: nat)
    requires k < |organized|
    requires forall j :: 0 <= j < |data| ==> data[j].skillName.None? || !SameName(data[j].skillName.value, organized[k].skill.name)
    ensures var r := Enrich(organized, Success(BatchReply(Some(data))));
            r[k].resources == [] && r[k].milestones == []
  {
    var m := FirstDataMatch(data, organized[k].skill.name, 0);
    if m.Some? {
      assert false;
    }
  }

  // ---------------------------------------------------------------------------
  // Prerequisite names to ids
  // ---------------------------------------------------------------------------

  /** `new Map(skills.map(s => [lower(s.name), s.id])).get(key)`: a later entry with the same key
      replaces an earlier one, so the LAST skill with that lower-cased name wins. */
  function LookupLastWins(skills: seq<EnrichedSkill>, key: string): (r: Option<string>)
    ensures r.Some? ==> exists k :: 0 <= k < |skills| && ToLower(skills[k].org.skill.name) == key && skills[k].org.skill.id == r.value
    ensures r.None? ==> forall k :: 0 <= k < |skills| ==> ToLower(skills[k].org.skill.name) != key
  {
    if skills == [] then None
    else if ToLower(skills[|skills| - 1].org.skill.name) == key then Some(skills[|skills| - 1].org.skill.id)
    else LookupLastWins(skills[..|skills| - 1], key)
  }

  /** The lower-cased names of `skills` are pairwise different. */
  predicate NamesDistinct(skills: seq<EnrichedSkill>) {
    forall j, k :: 0 <= j < k < |skills| ==> !SameName(skills[j].org.skill.name, skills[k].org.skill.name)
  }

  /** With distinct names, looking up a skill's own name finds that skill. */
  lemma {:induction false} LookupFindsUniqueName(skills: seq<EnrichedSkill>, k: nat)
    requires NamesDistinct(skills) && k < |skills|
    ensures LookupLastWins(skills, ToLower(skills[k].org.skill.name)) == Some(skills[k].org.skill.id)
  {
    var last := |skills| - 1;
    if k < last {
      assert !SameName(skills[k].org.skill.name, skills[last].org.skill.name);
      var front := skills[..last];
      assert front[k] == skills[k];
      LookupFindsUniqueName(front, k);
    }
  }

  /** `prerequisites.map(n => map.get(lower(n))).filter(Boolean)`. */
  function ResolvePrerequisites(skills: seq<EnrichedSkill>, names: seq<string>): (ids: seq<string>)
    ensures |ids| <= |names|
    ensures forall i :: 0 <= i < |ids| ==> ids[i] != "" && exists k :: 0 <= k < |skills| && skills[k].org.skill.id == ids[i]
  {
    if names == [] then []
    else ResolveOne(skills, names[0]) + ResolvePrerequisites(skills, names[1..])
  }

  /** One name's contribution: its id when the map holds a non-empty one, else nothing. */
  function ResolveOne(skills: seq<EnrichedSkill>, name: string): (ids: seq<string>)
    ensures |ids| <= 1
    ensures forall i :: 0 <= i < |ids| ==> ids[i] != "" && exists k :: 0 <= k < |skills| && skills[k].org.skill.id == ids[i]
  {
    match LookupLastWins(skills, ToLower(name))
    case Some(id) => if id != "" then [id] else []
    case None => []
  }

  /** Resolution works name by name, keeping the order and any repetitions. */
  lemma {:induction false} ResolveConcat(skills: seq<EnrichedSkill>, a: seq<string>, b: seq<string>)
    ensures ResolvePrerequisites(skills, a + b) == ResolvePrerequisites(skills, a) + ResolvePrerequisites(skills, b)
  {
    if a == [] {
      EmptyConcat(b);
      EmptyConcat(ResolvePrerequisites(skills, b));
    } else {
      var x, restA := a[0], a[1..];
      ResolveConcat(skills, restA, b);
      ResolveCons(skills, x, restA + b);
      ResolveCons(skills, x, restA);
      ConsSplit(a, b);
      SeqAssoc(ResolveOne(skills, x), ResolvePrerequisites(skills, restA), ResolvePrerequisites(skills, b));
    }
  }

  lemma {:induction false} ResolveCons(skills: seq<EnrichedSkill>, x: string, rest: seq<string>)
    ensures ResolvePrerequisites(skills, [x] + rest) == ResolveOne(skills, x) + ResolvePrerequisites(skills, rest)
  {
    assert ([x] + rest)[0] == x;
    assert ([x] + rest)[1..] == rest;
  }

  /** A name that is not the name of a skill in this roadmap is dropped. */
  lemma {:induction false} UnknownPrerequisiteDropped(skills: seq<EnrichedSkill>, name: string)
    requires forall k :: 0 <= k < |skills| ==> !SameName(skills[k].org.skill.name, name)
    ensures ResolvePrerequisites(skills, [name]) == []
  {
    forall k | 0 <= k < |skills| ensures ToLower(skills[k].org.skill.name) != ToLower(name) {
      assert !SameName(skills[k].org.skill.name, name);
    }
    assert LookupLastWins(skills, ToLower(name)) == None;
    assert ResolvePrerequisites(skills, [name]) == [] + ResolvePrerequisites(skills, []);
  }

  /** A name of a skill in this roadmap resolves to that skill's id, including the skill's own
      name: self-references are kept. */
  lemma {:induction false} KnownPrerequisiteResolved(skills: seq<EnrichedSkill>, name: string, k: nat)
    requires NamesDistinct(skills) && k < |skills|
    requires SameName(skills[k].org.skill.name, name) && skills[k].org.skill.id != ""
    ensures ResolvePrerequisites(skills, [name]) == [skills[k].org.skill.id]
  {
    LookupFindsUniqueName(skills, k);
  }

  /** Enrichment keeps the reconciled names, which are pairwise different ignoring case. */
  lemma {:induction false} EnrichedNamesDistinct(selected: seq<Skill>, planned: seq<PlannedSkill>, batch: Result<BatchReply, string>)
    ensures NamesDistinct(Enrich(Reconciled(selected, planned), batch))
  {
    ReconciledNamesDistinct(selected, planned);
  }

  // ---------------------------------------------------------------------------
  // Links and resource rows
  // ---------------------------------------------------------------------------

  /** `milestones.map(m => ({...m, completed: false}))`. */
  function PendingMilestones(ms: seq<Milestone>): (r: seq<Milestone>)
    ensures |r| == |ms|
    ensures forall k :: 0 <= k < |ms| ==>
              !r[k].completed && r[k].level == ms[k].level && r[k].title == ms[k].title && r[k].objectives == ms[k].objectives
  {
    seq(|ms|, k requires 0 <= k < |ms| => ms[k].(completed := false))
  }

  /** The link written for the skill at index `k` of the enriched list. */
  function LinkFor(skills: seq<EnrichedSkill>, k: nat): LinkCreate
    requires k < |skills|
  {
    var e := skills[k];
    LinkCreate(e.org.skill.id, k + 1, false,
               Some(LinkDetails(PendingMilestones(e.milestones), e.org.learningObjectives,
                                ResolvePrerequisites(skills, e.org.prerequisites),
                                if e.org.estimatedHours == 0 then DefaultHours else e.org.estimatedHours)))
  }

  /** The `roadmapSkills.create` list of the full path. */
  function BuildLinks(skills: seq<EnrichedSkill>): (links: seq<LinkCreate>)
    ensures |links| == |skills|
    ensures forall k :: 0 <= k < |links| ==>
              && links[k].order == k + 1 && !links[k].isConcluded
              && links[k].skillId == skills[k].org.skill.id && links[k].details.Some?
              && links[k].details.value.estimatedHours != 0
              && (skills[k].org.estimatedHours != 0 ==>
                    links[k].details.value.estimatedHours == skills[k].org.estimatedHours)
              && links[k].details.value.learningObjectives == skills[k].org.learningObjectives
              && |links[k].details.value.milestones| == |skills[k].milestones|
              && links[k].details.value.milestones == PendingMilestones(skills[k].milestones)
              && links[k].details.value.prerequisites == ResolvePrerequisites(skills, skills[k].org.prerequisites)
    ensures forall k, m :: 0 <= k < |links| && m in links[k].details.value.milestones ==> !m.completed
    ensures forall k, p :: 0 <= k < |links| && p in links[k].details.value.prerequisites ==>
              exists j :: 0 <= j < |links| && links[j].skillId == p
  {
    seq(|skills|, k requires 0 <= k < |skills| => LinkFor(skills, k))
  }

  /** The row written for one resource: the type defaults to "article", `is_free` to true
      only when it is undefined. */
  function RowFor(skillId: string, r: ResourceInput): (row: ResourceRow)
    ensures row.skillId == skillId && row.title == r.title && row.url == r.url && row.platform == r.platform
    ensures row.resourceType != "" && (r.resourceType != "" ==> row.resourceType == r.resourceType)
    ensures !row.isFree <==> r.isFree == Some(false)
  {
    ResourceRow(skillId, if r.resourceType == "" then DefaultResourceType else r.resourceType,
                r.title, r.url, r.platform, match r.isFree case None => true case Some(b) => b)
  }

  /** The number of resources over all skills. */
  function TotalResources(skills: seq<EnrichedSkill>): nat {
    if skills == [] then 0 else |skills[0].resources| + TotalResources(skills[1..])
  }

  /** The `createMany` calls of the resource loop, one row per resource, only for skills that have some. */
  function ResourceRows(skills: seq<EnrichedSkill>): (rows: seq<ResourceRow>)
    ensures |rows| == TotalResources(skills)
    ensures forall i :: 0 <= i < |rows| ==>
              rows[i].resourceType != "" && exists k :: 0 <= k < |skills| && skills[k].org.skill.id == rows[i].skillId
  {
    if skills == [] then []
    else
      var e := skills[0];
      var own := if |e.resources| > 0 then seq(|e.resources|, i requires 0 <= i < |e.resources| => RowFor(e.org.skill.id, e.resources[i]))
                 else [];
      var rest := ResourceRows(skills[1..]);
      assert forall i :: 0 <= i < |rest| ==> exists k :: 0 <= k < |skills| && skills[k].org.skill.id == rest[i].skillId by {
        forall i | 0 <= i < |rest| ensures exists k :: 0 <= k < |skills| && skills[k].org.skill.id == rest[i].skillId {
          var k :| 0 <= k < |skills[1..]| && skills[1..][k].org.skill.id == rest[i].skillId;
          assert skills[k + 1] == skills[1..][k];
        }
      }
      own + rest
  }

  /** One skill gives one row per resource, in order. */
  lemma {:induction false} ResourceRowsOfOne(e: EnrichedSkill)
    ensures |ResourceRows([e])| == |e.resources|
    ensures forall i :: 0 <= i < |e.resources| ==> ResourceRows([e])[i] == RowFor(e.org.skill.id, e.resources[i])
  {
    assert [e][1..] == [];
  }

  /** The rows of two lists of skills are the rows of the first followed by those of the second. */
  lemma {:induction false} ResourceRowsConcat(a: seq<EnrichedSkill>, b: seq<EnrichedSkill>)
    ensures ResourceRows(a + b) == ResourceRows(a) + ResourceRows(b)
  {
    if a == [] {
      assert a + b == b;
    } else {
      assert (a + b)[0] == a[0];
      assert (a + b)[1..] == a[1..] + b;
      ResourceRowsConcat(a[1..], b);
      var e := a[0];
      var own := if |e.resources| > 0 then seq(|e.resources|, i requires 0 <= i < |e.resources| => RowFor(e.org.skill.id, e.resources[i]))
                 else [];
      SeqAssoc(own, ResourceRows(a[1..]), ResourceRows(b));
    }
  }

  // ---------------------------------------------------------------------------
  // The two service stages
  // ---------------------------------------------------------------------------

  /** The ordering stage: the call's text, refused when empty, cut by `StripMarkdownJson` and
      parsed with one repair round-trip. */
  function OrderingStage(call: Result<string, string>, parse: string -> ParseOutcome<OrderingReply>,
                         repair: RepairRequest -> RepairReply): (r: Result<OrderingReply, string>)
    ensures call.Failure? ==> r == Failure(call.error)
    ensures call == Success("") ==> r == Failure(EmptyAiResponse)
    ensures r.Success? ==> exists t :: parse(t) == Parsed(r.value)
  {
    match call
    case Failure(e) => Failure(e)
    case Success(text) =>
      if text == "" then Failure(EmptyAiResponse)
      else
        var cleaned := StripMarkdownJson(text);
        RecoveredValueWasParsed(cleaned, parse, true, repair);
        ParseWithFallback(cleaned, parse, true, repair).result
  }

  /** The enrichment stage: the call's text cut by `StripMarkdownJson` and parsed with one
      repair round-trip; any failure is caught by the controller. */
  function BatchStage(call: Result<string, string>, parse: string -> ParseOutcome<BatchReply>,
                      repair: RepairRequest -> RepairReply): (r: Result<BatchReply, string>)
    ensures call.Failure? ==> r == Failure(call.error)
    ensures r.Success? ==> exists t :: parse(t) == Parsed(r.value)
  {
    match call
    case Failure(e) => Failure(e)
    case Success(text) =>
      var cleaned := StripMarkdownJson(text);
      RecoveredValueWasParsed(cleaned, parse, true, repair);
      ParseWithFallback(cleaned, parse, true, repair).result
  }

  // ---------------------------------------------------------------------------
  // generateCompleteRoadmap
  // ---------------------------------------------------------------------------

  /** The request is refused with 400 before the catalog is used for anything else. */
  predicate InvalidRequest(catalog: seq<Skill>, req: GenerateRequest) {
    || req.careerGoal == "" || req.experience == ""
    || req.selectedSkillIds.None? || |req.selectedSkillIds.value| == 0
    || SelectFromCatalog(catalog, req.selectedSkillIds.value) == []
  }

  /** The links of the degraded path: the selected skills in catalog order, numbered from 1,
      without planning columns. */
  function BasicLinks(selected: seq<Skill>): (links: seq<LinkCreate>)
    ensures |links| == |selected|
    ensures forall k :: 0 <= k < |links| ==>
              links[k].skillId == selected[k].id && links[k].order == k + 1 && !links[k].isConcluded && links[k].details.None?
  {
    seq(|selected|, k requires 0 <= k < |selected| => LinkCreate(selected[k].id, k + 1, false, None))
  }

  /**
   * `generateCompleteRoadmap`, from the request to the reply. `configured` says whether a
   * service key is set; `ordering` and `batch` are the outcomes of the two service stages
   * (see `OrderingStage` and `BatchStage`). Any exception of the full path becomes a 500.
   */
  function GenerateComplete(catalog: seq<Skill>, req: GenerateRequest, configured: bool,
                            ordering: Result<OrderingReply, string>, batch: Result<BatchReply, string>): Reply
  {
    if req.careerGoal == "" || req.experience == "" then Rejected(400, GoalRequired)
    else if req.selectedSkillIds.None? || |req.selectedSkillIds.value| == 0 then Rejected(400, SelectionRequired)
    else
      var selected := SelectFromCatalog(catalog, req.selectedSkillIds.value);
      if selected == [] then Rejected(400, NoValidSkill)
      else if !configured then
        Written(200, RoadmapCreate(TitleFor(req.careerGoal), req.careerGoal, req.experience, 0, BasicLinks(selected), []))
      else if ordering.Failure? || ordering.value.skills.None? then Rejected(500, GenerationFailed)
      else
        var organized := Reconciled(selected, ordering.value.skills.value);
        if organized == [] then Rejected(500, GenerationFailed)
        else
          var enriched := Enrich(organized, batch);
          var title := if ordering.value.titulo == "" then TitleFor(req.careerGoal) else ordering.value.titulo;
          Written(201, RoadmapCreate(title, req.careerGoal, req.experience, 0, BuildLinks(enriched), ResourceRows(enriched)))
  }

  /** A 400 is answered exactly for an invalid request, whatever the service would have said;
      the checks run in order: text fields, then the id list, then the catalog. */
  lemma {:induction false} RejectedBeforeAnyCall(catalog: seq<Skill>, req: GenerateRequest, configured: bool,
                              ordering: Result<OrderingReply, string>, batch: Result<BatchReply, string>)
    ensures var r := GenerateComplete(catalog, req, configured, ordering, batch);
            (r.Rejected? && r.status == 400) <==> InvalidRequest(catalog, req)
    ensures InvalidRequest(catalog, req) ==>
              GenerateComplete(catalog, req, configured, ordering, batch) == GenerateComplete(catalog, req, false, Failure(""), Failure(""))
    ensures req.careerGoal == "" || req.experience == "" ==>
              GenerateComplete(catalog, req, configured, ordering, batch) == Rejected(400, GoalRequired)
  {
  }

  /** Without a service key the roadmap holds the selected skills in catalog order, numbered
      1..n, not concluded, without planning columns or resources, and the answer is 200. */
  lemma {:induction false} DegradedRoadmap(catalog: seq<Skill>, req: GenerateRequest,
                        ordering: Result<OrderingReply, string>, batch: Result<BatchReply, string>)
    requires !InvalidRequest(catalog, req)
    ensures var r := GenerateComplete(catalog, req, false, ordering, batch);
            var selected := SelectFromCatalog(catalog, req.selectedSkillIds.value);
            && r.Written? && r.status == 200
            && r.roadmap.title == TitleFor(req.careerGoal) && r.roadmap.percentualProgress == 0
            && r.roadmap.resources == [] && |r.roadmap.links| == |selected|
            && forall k :: 0 <= k < |selected| ==>
                 r.roadmap.links[k] == LinkCreate(selected[k].id, k + 1, false, None)
  {
  }

  /** With a service key, a 500 is answered exactly when the ordering stage fails, its reply
      has no skills array, or none of its names matches a selected skill. */
  lemma {:induction false} GenerationFailsIff(catalog: seq<Skill>, req: GenerateRequest,
                           ordering: Result<OrderingReply, string>, batch: Result<BatchReply, string>)
    requires !InvalidRequest(catalog, req)
    ensures var r := GenerateComplete(catalog, req, true, ordering, batch);
            var selected := SelectFromCatalog(catalog, req.selectedSkillIds.value);
            (r.Rejected? && r.status == 500) <==>
              (|| ordering.Failure? || ordering.value.skills.None?
               || forall i :: 0 <= i < |ordering.value.skills.value| ==>
                    MatchByName(selected, ordering.value.skills.value[i].name).None?)
    ensures GenerateComplete(catalog, req, true, ordering, batch).Rejected? ==>
              GenerateComplete(catalog, req, true, ordering, batch) == Rejected(500, GenerationFailed)
  {
    if ordering.Success? && ordering.value.skills.Some? {
      ReconciledEmptyIff(SelectFromCatalog(catalog, req.selectedSkillIds.value), ordering.value.skills.value);
    }
  }

  /** The full path writes one link per reconciled skill: each a requested catalog skill, none
      twice, numbered 1..n, with prerequisites that name links of the same roadmap; every resource
      row belongs to one of its links; the title falls back to "Trilha: <goal>". */
  lemma {:induction false} GeneratedRoadmapShape(catalog: seq<Skill>, req: GenerateRequest,
                              ordering: Result<OrderingReply, string>, batch: Result<BatchReply, string>)
    requires !InvalidRequest(catalog, req)
    requires GenerateComplete(catalog, req, true, ordering, batch).Written?
    ensures var r := GenerateComplete(catalog, req, true, ordering, batch);
            var links := r.roadmap.links;
            && r.status == 201 && r.roadmap.percentualProgress == 0
            && r.roadmap.title == (if ordering.value.titulo == "" then TitleFor(req.careerGoal) else ordering.value.titulo)
            && 0 < |links| <= |catalog|
            && (forall k :: 0 <= k < |links| ==> links[k].order == k + 1 && !links[k].isConcluded)
            && (forall k :: 0 <= k < |links| ==> exists s :: s in catalog && s.id == links[k].skillId && s.id in req.selectedSkillIds.value)
            && (forall j, k :: 0 <= j < k < |links| ==> links[j].skillId != links[k].skillId)
            && (forall k, p :: 0 <= k < |links| && p in links[k].details.value.prerequisites ==>
                  exists j :: 0 <= j < |links| && links[j].skillId == p)
            && (forall row :: row in r.roadmap.resources ==> exists k :: 0 <= k < |links| && links[k].skillId == row.skillId)
  {
    var selected := SelectFromCatalog(catalog, req.selectedSkillIds.value);
    GeneratedParts(catalog, req, ordering, batch);
    var enriched := Enrich(Reconciled(selected, ordering.value.skills.value), batch);
    GeneratedLinks(catalog, req.selectedSkillIds.value, ordering.value.skills.value, batch);
    var links := BuildLinks(enriched);
    assert GenerateComplete(catalog, req, true, ordering, batch).roadmap.links == links;
    assert GenerateComplete(catalog, req, true, ordering, batch).roadmap.resources == ResourceRows(enriched);
  }

  /** The written reply of the full path, spelled out: the reconciled skills, enriched, become
      the links and the resource rows. */
  lemma {:induction false} GeneratedParts(catalog: seq<Skill>, req: GenerateRequest,
                              ordering: Result<OrderingReply, string>, batch: Result<BatchReply, string>)
    requires !InvalidRequest(catalog, req)
    requires GenerateComplete(catalog, req, true, ordering, batch).Written?
    ensures ordering.Success? && ordering.value.skills.Some?
    ensures var selected := SelectFromCatalog(catalog, req.selectedSkillIds.value);
            var organized := Reconciled(selected, ordering.value.skills.value);
            var enriched := Enrich(organized, batch);
            var title := if ordering.value.titulo == "" then TitleFor(req.careerGoal) else ordering.value.titulo;
            && organized != []
            && GenerateComplete(catalog, req, true, ordering, batch)
               == Written(201, RoadmapCreate(title, req.careerGoal, req.experience, 0, BuildLinks(enriched), ResourceRows(enriched)))
  {
  }

  /** The links built from the reconciled selection: requested catalog skills, none twice, no
      more of them than the catalog holds. */
  lemma {:induction false} GeneratedLinks(catalog: seq<Skill>, ids: seq<string>, planned: seq<PlannedSkill>,
                                          batch: Result<BatchReply, string>)
    ensures var selected := SelectFromCatalog(catalog, ids);
            var links := BuildLinks(Enrich(Reconciled(selected, planned), batch));
            && |links| <= |catalog|
            && (forall k :: 0 <= k < |links| ==> exists s :: s in catalog && s.id == links[k].skillId && s.id in ids)
            && (forall j, k :: 0 <= j < k < |links| ==> links[j].skillId != links[k].skillId)
  {
    var selected := SelectFromCatalog(catalog, ids);
    var organized := Reconciled(selected, planned);
    ReconciledOrigin(selected, planned);
    ReconciledDistinct(selected, planned);
    var enriched := Enrich(organized, batch);
    var links := BuildLinks(enriched);
    forall k | 0 <= k < |links|
      ensures exists s :: s in catalog && s.id == links[k].skillId && s.id in ids
    {
      assert Originated(selected, planned, organized[k]);
      assert organized[k].skill in selected;
    }
    forall j, k | 0 <= j < k < |links| ensures links[j].skillId != links[k].skillId {
      assert links[j].skillId == organized[j].skill.id;
    }
    DistinctBounded(selected, organized);
  }

  /** A list of distinct selected skills is no longer than the selection. */
  lemma {:induction false} DistinctBounded(selected: seq<Skill>, os: seq<OrganizedSkill>)
    requires DistinctSkills(os)
    requires forall k :: 0 <= k < |os| ==> os[k].skill in selected
    ensures |os| <= |selected|
  {
    var ids := set k | 0 <= k < |os| :: os[k].skill.id;
    var pool := set s | s in selected :: s.id;
    assert ids <= pool;
    assert |ids| == |os| by { DistinctIdsCount(os); }
    SetOfSeqBound(selected);
    SubsetSmaller(ids, pool);
  }

  lemma {:induction false} SubsetSmaller(a: set<string>, b: set<string>)
    requires a <= b
    ensures |a| <= |b|
    decreases |a|
  {
    if a != {} {
      var x :| x in a;
      SubsetSmaller(a - {x}, b - {x});
    }
  }

  lemma {:induction false} DistinctIdsCount(os: seq<OrganizedSkill>)
    requires DistinctSkills(os)
    ensures |set k | 0 <= k < |os| :: os[k].skill.id| == |os|
  {
    if os != [] {
      var front := os[..|os| - 1];
      var last := os[|os| - 1].skill.id;
      assert DistinctSkills(front) by {
        forall j, k | 0 <= j < k < |front| ensures front[j].skill.id != front[k].skill.id {
          assert front[j] == os[j] && front[k] == os[k];
        }
      }
      DistinctIdsCount(front);
      IdsOfSnoc(os);
      assert last !in set k | 0 <= k < |front| :: front[k].skill.id by {
        forall k | 0 <= k < |front| ensures front[k].skill.id != last {
          assert front[k] == os[k];
        }
      }
    }
  }

  /** The ids of a non-empty list: those of all but its last element, and the last one's. */
  lemma {:induction false} IdsOfSnoc(os: seq<OrganizedSkill>)
    requires os != []
    ensures var front := os[..|os| - 1];
            (set k | 0 <= k < |os| :: os[k].skill.id)
            == (set k | 0 <= k < |front| :: front[k].skill.id) + {os[|os| - 1].skill.id}
  {
    var front := os[..|os| - 1];
    var a := set k | 0 <= k < |front| :: front[k].skill.id;
    var b := set k | 0 <= k < |os| :: os[k].skill.id;
    forall x | x in b ensures x in a + {os[|os| - 1].skill.id} {
      var k :| 0 <= k < |os| && os[k].skill.id == x;
      if k < |front| { assert front[k] == os[k]; }
    }
    forall x | x in a ensures x in b {
      var k :| 0 <= k < |front| && front[k].skill.id == x;
      assert os[k] == front[k];
    }
  }

  lemma {:induction false} SetOfSeqBound(selected: seq<Skill>)
    ensures |set s | s in selected :: s.id| <= |selected|
  {
    if selected != [] {
      var front := selected[..|selected| - 1];
      SetOfSeqBound(front);
      var last := selected[|selected| - 1];
      assert (set s | s in selected :: s.id) <= (set s | s in front :: s.id) + {last.id} by {
        forall s | s in selected ensures s.id in (set t | t in front :: t.id) + {last.id} {
          var k :| 0 <= k < |selected| && selected[k] == s;
          if k < |front| { assert front[k] == s; }
        }
      }
      SubsetSmaller(set s | s in selected :: s.id, (set s | s in front :: s.id) + {last.id});
    }
  }

  /** A failed enrichment stage does not abort the request: the roadmap is written with 201,
      no milestones and no resources. */
  lemma {:induction false} BatchFailureStillWrites(catalog: seq<Skill>, req: GenerateRequest,
                                ordering: Result<OrderingReply, string>, message: string)
    requires !InvalidRequest(catalog, req)
    requires GenerateComplete(catalog, req, true, ordering, Failure(message)).Written?
    ensures var r := GenerateComplete(catalog, req, true, ordering, Failure(message));
            && r.status == 201 && r.roadmap.resources == []
            && forall k :: 0 <= k < |r.roadmap.links| ==> r.roadmap.links[k].details.value.milestones == []
  {
    var selected := SelectFromCatalog(catalog, req.selectedSkillIds.value);
    var enriched := Enrich(Reconciled(selected, ordering.value.skills.value), Failure(message));
    NoResourcesNoRows(enriched);
  }

  lemma {:induction false} NoResourcesNoRows(skills: seq<EnrichedSkill>)
    requires forall k :: 0 <= k < |skills| ==> skills[k].resources == []
    ensures ResourceRows(skills) == []
  {
    if skills != [] {
      NoResourcesNoRows(skills[1..]);
    }
  }

  // ---------------------------------------------------------------------------
  // createRoadmap
  // ---------------------------------------------------------------------------

  /** The body of `POST /api/roadmaps`; `skills` is `None` when missing or not an array. */
  datatype CreateRequest = CreateRequest(title: string, careerGoal: string, experience: string, skills: Option<seq<string>>)

  const CreateFieldsRequired: string := "Título, objetivo de carreira e nível de experiência são obrigatórios"
  const CreateSkillRequired: string := "Pelo menos uma skill é obrigatória"

  /** `createRoadmap`: the caller's skill ids, in the caller's order and with any repetitions,
      become links numbered from 1; the answer is 201. */
  function CreateRoadmap(req: CreateRequest): (r: Reply)
    ensures r.Rejected? <==> req.title == "" || req.careerGoal == "" || req.experience == ""
                             || req.skills.None? || |req.skills.value| == 0
    ensures r.Rejected? ==> r.status == 400
    ensures (req.title == "" || req.careerGoal == "" || req.experience == "") ==> r == Rejected(400, CreateFieldsRequired)
    ensures r.Written? ==>
              && r.status == 201 && r.roadmap.title == req.title && r.roadmap.percentualProgress == 0
              && r.roadmap.resources == [] && |r.roadmap.links| == |req.skills.value|
              && forall k :: 0 <= k < |r.roadmap.links| ==>
                   r.roadmap.links[k] == LinkCreate(req.skills.value[k], k + 1, false, None)
  {
    if req.title == "" || req.careerGoal == "" || req.experience == "" then Rejected(400, CreateFieldsRequired)
    else if req.skills.None? || |req.skills.value| == 0 then Rejected(400, CreateSkillRequired)
    else
      var ids := req.skills.value;
      var links := seq(|ids|, k requires 0 <= k < |ids| => LinkCreate(ids[k], k + 1, false, None));
      Written(201, RoadmapCreate(req.title, req.careerGoal, req.experience, 0, links, []))
  }
}
