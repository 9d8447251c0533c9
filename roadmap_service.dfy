/**
 * The mobile app's local roadmap store (`RoadmapService`). Roadmaps are kept as one list under
 * the device storage key `skillmap_roadmaps`, and the skills of each roadmap as a list under
 * `skillmap_roadmaps_skills_<roadmap id>`; every operation reads a list, changes it and
 * writes it back.
 *
 * The storage is the two fields of the class. The clock (`now`), the generated roadmap id and
 * the outcome of the text-generation call are parameters.
 */
module RoadmapStore {
  import opened Wrappers
  import opened Seqs
  import opened Text
  import opened Percent

  // ---------------------------------------------------------------------------
  // The skill pool and the mock generator
  // ---------------------------------------------------------------------------

  /** A skill as the local store keeps it: `nome`, `tipo` ("hard" or "soft"), `descricao`. */
  datatype PoolSkill = PoolSkill(id: string, nome: string, tipo: string, descricao: string)

  const Hard: string := "hard"
  const Soft: string := "soft"

  /** `SKILL_POOL`, in its declared order. */
  const SkillPool: seq<PoolSkill> := [
    PoolSkill("skill-001", "Fundamentos de IA", Hard,
              "Bases matemáticas, estatística aplicada e conceitos de machine learning."),
    PoolSkill("skill-002", "Prompt Engineering", Hard,
              "Estratégias para dialogar com modelos de linguagem de forma eficiente."),
    PoolSkill("skill-003", "Python Avançado", Hard,
              "Programação orientada a objetos, async/await, decorators e type hints."),
    PoolSkill("skill-004", "TensorFlow & PyTorch", Hard,
              "Frameworks para deep learning e treinamento de modelos neurais."),
    PoolSkill("skill-005", "MLOps", Hard,
              "Deploy, monitoramento e versionamento de modelos em produção."),
    PoolSkill("skill-006", "Comunicação Não Violenta", Soft,
              "Técnicas de diálogo empático para liderar times multidisciplinares."),
    PoolSkill("skill-007", "Gestão do Tempo", Soft,
              "Práticas para manter ritmo sustentável durante requalificação."),
    PoolSkill("skill-008", "Pensamento Crítico", Soft,
              "Análise de problemas complexos e tomada de decisões baseada em dados."),
    PoolSkill("skill-009", "Liderança Técnica", Soft,
              "Mentoria de júniores e condução de code reviews construtivos."),
    PoolSkill("skill-010", "Ética em IA", Hard,
              "Viés algorítmico, privacidade de dados e responsabilidade social.")
  ]

  /** `CriarRoadmapDTO`: the career name and the user's current hard and soft skills. */
  datatype CriarRoadmapDto = CriarRoadmapDto(nomeCarreira: string, hardSkillsAtuais: seq<string>,
                                             softSkillsAtuais: seq<string>)

  /** A pool skill is left out when its lower-cased name contains some lower-cased current skill. */
  predicate Excluded(skill: PoolSkill, existing: seq<string>) {
    exists k :: 0 <= k < |existing| && Contains(ToLower(skill.nome), ToLower(existing[k]))
  }

  /** The pool skills of one type that no current skill excludes, in pool order. */
  function Recommended(pool: seq<PoolSkill>, tipo: string, existing: seq<string>): (r: seq<PoolSkill>)
    ensures |r| <= |pool|
    ensures forall s :: s in r <==> s in pool && s.tipo == tipo && !Excluded(s, existing)
  {
    if pool == [] then []
    else
      var s := pool[|pool| - 1];
      var rest := Recommended(pool[..|pool| - 1], tipo, existing);
      assert pool == pool[..|pool| - 1] + [s];
      if s.tipo == tipo && !Excluded(s, existing) then rest + [s] else rest
  }

  /** The filter keeps the pool's order: what it keeps from an earlier part of the pool comes
      before what it keeps from a later part. */
  lemma {:induction false} RecommendedConcat(a: seq<PoolSkill>, b: seq<PoolSkill>, tipo: string, existing: seq<string>)
    ensures Recommended(a + b, tipo, existing) == Recommended(a, tipo, existing) + Recommended(b, tipo, existing)
    decreases |b|
  {
    if b == [] {
      assert a + b == a;
    } else {
      var s := b[|b| - 1];
      assert (a + b)[..|a + b| - 1] == a + b[..|b| - 1];
      RecommendedConcat(a, b[..|b| - 1], tipo, existing);
    }
  }

  /** An empty current skill is contained in every name, so it excludes its whole type. */
  lemma {:induction false} EmptyEntryExcludesType(pool: seq<PoolSkill>, tipo: string, existing: seq<string>)
    requires "" in existing
    ensures Recommended(pool, tipo, existing) == []
  {
    if pool != [] {
      var s := pool[|pool| - 1];
      var k :| 0 <= k < |existing| && existing[k] == "";
      assert ToLower(existing[k]) == "";
      assert IsPrefix("", ToLower(s.nome));
      assert Excluded(s, existing);
      EmptyEntryExcludesType(pool[..|pool| - 1], tipo, existing);
    }
  }

  function Min(a: int, b: int): int {
    if a <= b then a else b
  }

  /**
   * `gerarSkillsMock` over a given pool: the first four recommended hard skills, then the
   * first three recommended soft skills.
   */
  function MockFrom(pool: seq<PoolSkill>, dto: CriarRoadmapDto): (r: seq<PoolSkill>)
    ensures var hard := Recommended(pool, Hard, dto.hardSkillsAtuais);
            var soft := Recommended(pool, Soft, dto.softSkillsAtuais);
            var nh := Min(4, |hard|);
            && |r| == nh + Min(3, |soft|) && |r| <= 7
            && (forall k :: 0 <= k < nh ==> r[k] == hard[k] && r[k].tipo == Hard)
            && (forall k :: nh <= k < |r| ==> r[k] == soft[k - nh] && r[k].tipo == Soft)
    ensures forall s :: s in r ==> s in pool
    ensures forall s :: s in r && s.tipo == Hard ==> !Excluded(s, dto.hardSkillsAtuais)
    ensures forall s :: s in r && s.tipo == Soft ==> !Excluded(s, dto.softSkillsAtuais)
  {
    var hard := Recommended(pool, Hard, dto.hardSkillsAtuais);
    var soft := Recommended(pool, Soft, dto.softSkillsAtuais);
    var nh, ns := Min(4, |hard|), Min(3, |soft|);
    MockJoined(pool, dto, hard, soft, nh, ns);
    hard[..nh] + soft[..ns]
  }

  /** The mock's choice, stated of the two filtered lists it is cut from. */
  lemma {:induction false} MockJoined(pool: seq<PoolSkill>, dto: CriarRoadmapDto, hard: seq<PoolSkill>, soft: seq<PoolSkill>, nh: nat, ns: nat)
    requires hard == Recommended(pool, Hard, dto.hardSkillsAtuais)
    requires soft == Recommended(pool, Soft, dto.softSkillsAtuais)
    requires nh == Min(4, |hard|) && ns == Min(3, |soft|)
    ensures var r := hard[..nh] + soft[..ns];
            && |r| == nh + ns && |r| <= 7
            && (forall k :: 0 <= k < nh ==> r[k] == hard[k] && r[k].tipo == Hard)
            && (forall k :: nh <= k < |r| ==> r[k] == soft[k - nh] && r[k].tipo == Soft)
            && (forall s :: s in r ==> s in pool)
            && (forall s :: s in r && s.tipo == Hard ==> !Excluded(s, dto.hardSkillsAtuais))
            && (forall s :: s in r && s.tipo == Soft ==> !Excluded(s, dto.softSkillsAtuais))
  {
    PrefixesJoined(hard, soft, nh, ns);
  }

  /** `gerarSkillsMock`, on `SKILL_POOL`. */
  function GerarSkillsMock(dto: CriarRoadmapDto): seq<PoolSkill> {
    MockFrom(SkillPool, dto)
  }

  /** With no current skills the mock picks skills 001 to 004 and 006 to 008: skill-010, the
      pool's fifth hard skill, falls past the cut of four. */
  lemma {:induction false} MockWithoutCurrentSkills(nomeCarreira: string)
    ensures GerarSkillsMock(CriarRoadmapDto(nomeCarreira, [], [])) ==
              [SkillPool[0], SkillPool[1], SkillPool[2], SkillPool[3], SkillPool[5], SkillPool[6], SkillPool[7]]
  {
    var pool := SkillPool;
    assert PoolShape(pool);
    MockOnShape(pool, CriarRoadmapDto(nomeCarreira, [], []));
  }

  /** Pools laid out like `SKILL_POOL`: five hard skills, four soft ones, one hard one. */
  predicate PoolShape(pool: seq<PoolSkill>) {
    && |pool| == 10
    && (forall k :: 0 <= k < 5 ==> pool[k].tipo == Hard)
    && (forall k :: 5 <= k < 9 ==> pool[k].tipo == Soft)
    && pool[9].tipo == Hard
  }

  /** The mock on any such pool, with no current skills. */
  lemma {:induction false} MockOnShape(pool: seq<PoolSkill>, dto: CriarRoadmapDto)
    requires dto.hardSkillsAtuais == [] && dto.softSkillsAtuais == []
    requires PoolShape(pool)
    ensures MockFrom(pool, dto) == [pool[0], pool[1], pool[2], pool[3], pool[5], pool[6], pool[7]]
  {
    HardOfShape(pool, dto.hardSkillsAtuais);
    SoftOfShape(pool, dto.softSkillsAtuais);
    var hard, soft := pool[..5] + [pool[9]], pool[5..9];
    MockOfParts(pool, dto, hard, soft);
    SevenOfTen(pool, hard, soft);
  }

  lemma {:induction false} SevenOfTen(pool: seq<PoolSkill>, hard: seq<PoolSkill>, soft: seq<PoolSkill>)
    requires |pool| == 10 && hard == pool[..5] + [pool[9]] && soft == pool[5..9]
    ensures hard[..4] + soft[..3] == [pool[0], pool[1], pool[2], pool[3], pool[5], pool[6], pool[7]]
  {
    assert hard[..4] == pool[..4];
    assert soft[..3] == pool[5..8];
  }

  lemma {:induction false} MockOfParts(pool: seq<PoolSkill>, dto: CriarRoadmapDto, hard: seq<PoolSkill>, soft: seq<PoolSkill>)
    requires |hard| == 6 && |soft| == 4
    requires Recommended(pool, Hard, dto.hardSkillsAtuais) == hard
    requires Recommended(pool, Soft, dto.softSkillsAtuais) == soft
    ensures MockFrom(pool, dto) == hard[..4] + soft[..3]
  {
  }

  lemma {:induction false} HardOfShape(pool: seq<PoolSkill>, e: seq<string>)
    requires e == [] && PoolShape(pool)
    ensures Recommended(pool, Hard, e) == pool[..5] + [pool[9]]
  {
    var front, middle, last := pool[..5], pool[5..9], [pool[9]];
    calc {
      Recommended(pool, Hard, e);
    == { ShapeParts(pool); }
      Recommended(front + middle + last, Hard, e);
    == { RecommendedOfThree(front, middle, last, Hard, e); }
      Recommended(front, Hard, e) + Recommended(middle, Hard, e) + Recommended(last, Hard, e);
    == { ShapeParts(pool); AllKept(front, Hard, e); NoneKept(middle, Hard, e); AllKept(last, Hard, e); }
      front + [] + last;
    == { assert front + [] == front; }
      front + last;
    }
  }

  lemma {:induction false} SoftOfShape(pool: seq<PoolSkill>, e: seq<string>)
    requires e == [] && PoolShape(pool)
    ensures Recommended(pool, Soft, e) == pool[5..9]
  {
    var front, middle, last := pool[..5], pool[5..9], [pool[9]];
    calc {
      Recommended(pool, Soft, e);
    == { ShapeParts(pool); }
      Recommended(front + middle + last, Soft, e);
    == { RecommendedOfThree(front, middle, last, Soft, e); }
      Recommended(front, Soft, e) + Recommended(middle, Soft, e) + Recommended(last, Soft, e);
    == { ShapeParts(pool); NoneKept(front, Soft, e); AllKept(middle, Soft, e); NoneKept(last, Soft, e); }
      [] + middle + [];
    == { assert [] + middle + [] == middle; }
      middle;
    }
  }

  /** The three runs of such a pool. */
  lemma {:induction false} ShapeParts(pool: seq<PoolSkill>)
    requires PoolShape(pool)
    ensures pool == pool[..5] + pool[5..9] + [pool[9]]
    ensures forall k :: 0 <= k < |pool[..5]| ==> pool[..5][k].tipo == Hard
    ensures forall k :: 0 <= k < |pool[5..9]| ==> pool[5..9][k].tipo == Soft
  {
    assert pool[..9] == pool[..5] + pool[5..9];
    assert pool == pool[..9] + [pool[9]];
  }

  lemma {:induction false} RecommendedOfThree(a: seq<PoolSkill>, b: seq<PoolSkill>, c: seq<PoolSkill>,
                                              tipo: string, existing: seq<string>)
    ensures Recommended(a + b + c, tipo, existing)
            == Recommended(a, tipo, existing) + Recommended(b, tipo, existing) + Recommended(c, tipo, existing)
  {
    RecommendedConcat(a + b, c, tipo, existing);
    RecommendedConcat(a, b, tipo, existing);
  }

  /** A pool part all of one type, with no current skills, is kept whole. */
  lemma {:induction false} AllKept(pool: seq<PoolSkill>, tipo: string, existing: seq<string>)
    requires existing == []
    requires forall k :: 0 <= k < |pool| ==> pool[k].tipo == tipo
    ensures Recommended(pool, tipo, existing) == pool
  {
    if pool != [] {
      AllKept(pool[..|pool| - 1], tipo, existing);
      assert pool == pool[..|pool| - 1] + [pool[|pool| - 1]];
    }
  }

  /** A pool part with no skill of a type keeps nothing of it. */
  lemma {:induction false} NoneKept(pool: seq<PoolSkill>, tipo: string, existing: seq<string>)
    requires forall k :: 0 <= k < |pool| ==> pool[k].tipo != tipo
    ensures Recommended(pool, tipo, existing) == []
  {
    if pool != [] {
      NoneKept(pool[..|pool| - 1], tipo, existing);
    }
  }

  // ---------------------------------------------------------------------------
  // Stored records
  // ---------------------------------------------------------------------------

  /** A roadmap as the local store keeps it; the dates are timestamps. */
  datatype LocalRoadmap = LocalRoadmap(id: string, usuarioId: string, nomeCarreira: string,
                                       progressoPercentual: int, dataCriacao: int, dataAtualizacao: int)

  /** One skill of a stored roadmap, with its status word and, once concluded, its date. */
  datatype LocalRoadmapSkill = LocalRoadmapSkill(id: string, roadmapId: string, skill: PoolSkill,
                                                 status: string, dataConclusao: Option<int>)

  const Pendente: string := "pendente"
  const Concluido: string := "concluido"

  /** `RoadmapResult`: the created roadmap and its skills, or an error message. */
  datatype RoadmapResult = Created(roadmap: LocalRoadmap, skills: seq<LocalRoadmapSkill>)
                         | NotCreated(error: string)

  const NoSkillsGenerated: string := "Não foi possível gerar skills. Tente novamente."

  /** `GAMIFICATION.xp.porSkillConcluida`. */
  const XpPorSkillConcluida: int := 50

  /** The roadmaps stored for one user, in stored order. */
  function RoadmapsOf(all: seq<LocalRoadmap>, usuarioId: string): (r: seq<LocalRoadmap>)
    ensures |r| <= |all|
    ensures forall x :: x in r <==> x in all && x.usuarioId == usuarioId
  {
    if all == [] then []
    else
      var x := all[|all| - 1];
      var rest := RoadmapsOf(all[..|all| - 1], usuarioId);
      assert all == all[..|all| - 1] + [x];
      if x.usuarioId == usuarioId then rest + [x] else rest
  }

  /** The stored roadmaps without those whose id is `roadmapId`, in stored order. */
  function WithoutRoadmap(all: seq<LocalRoadmap>, roadmapId: string): (r: seq<LocalRoadmap>)
    ensures |r| <= |all|
    ensures forall x :: x in r <==> x in all && x.id != roadmapId
  {
    if all == [] then []
    else
      var x := all[|all| - 1];
      var rest := WithoutRoadmap(all[..|all| - 1], roadmapId);
      assert all == all[..|all| - 1] + [x];
      if x.id != roadmapId then rest + [x] else rest
  }

  /** The id of the skill at position `index` of a new roadmap. */
  function LinkId(roadmapId: string, index: nat): string {
    "roadmap-skill-" + roadmapId + "-" + NatToString(index)
  }

  /** Two positions of one roadmap never share a link id. */
  lemma {:induction false} LinkIdsDistinct(roadmapId: string, i: nat, j: nat)
    requires LinkId(roadmapId, i) == LinkId(roadmapId, j)
    ensures i == j
  {
    var p := "roadmap-skill-" + roadmapId + "-";
    assert LinkId(roadmapId, i) == p + NatToString(i);
    assert LinkId(roadmapId, j) == p + NatToString(j);
    assert NatToString(i) == LinkId(roadmapId, i)[|p|..];
    assert NatToString(j) == LinkId(roadmapId, j)[|p|..];
    NatToStringInjective(i, j);
  }

  /** The new roadmap's skills: one pending entry per generated skill, in generated order. */
  function LinksFor(roadmapId: string, skills: seq<PoolSkill>): seq<LocalRoadmapSkill> {
    seq(|skills|, k requires 0 <= k < |skills| => LocalRoadmapSkill(LinkId(roadmapId, k), roadmapId, skills[k], Pendente, None))
  }

  /** The skills `criarRoadmap` works with: the generated list when the text-generation call
      produced one, the mock otherwise (no key configured, or the call failed). */
  function GeneratedSkills(dto: CriarRoadmapDto, aiSkills: Option<seq<PoolSkill>>): seq<PoolSkill> {
    match aiSkills
    case Some(list) => list
    case None => GerarSkillsMock(dto)
  }

  /** The position of the first skill with the given id, or -1. */
  function FirstSkillIndex(skills: seq<LocalRoadmapSkill>, skillId: string): (i: int)
    ensures -1 <= i < |skills|
    ensures i == -1 <==> forall k :: 0 <= k < |skills| ==> skills[k].id != skillId
    ensures i >= 0 ==> skills[i].id == skillId && forall k :: 0 <= k < i ==> skills[k].id != skillId
  {
    if skills == [] then -1
    else if skills[0].id == skillId then 0
    else
      var j := FirstSkillIndex(skills[1..], skillId);
      if j == -1 then -1 else j + 1
  }

  /** The position of the first roadmap with the given id, or -1. */
  function FirstRoadmapIndex(roadmaps: seq<LocalRoadmap>, roadmapId: string): (i: int)
    ensures -1 <= i < |roadmaps|
    ensures i == -1 <==> forall k :: 0 <= k < |roadmaps| ==> roadmaps[k].id != roadmapId
    ensures i >= 0 ==> roadmaps[i].id == roadmapId && forall k :: 0 <= k < i ==> roadmaps[k].id != roadmapId
  {
    if roadmaps == [] then -1
    else if roadmaps[0].id == roadmapId then 0
    else
      var j := FirstRoadmapIndex(roadmaps[1..], roadmapId);
      if j == -1 then -1 else j + 1
  }

  /** `skills.findIndex(s => s.id === skillId)`. */
  method FindSkillIndex(skills: seq<LocalRoadmapSkill>, skillId: string) returns (idx: int)
    ensures idx == FirstSkillIndex(skills, skillId)
  {
    idx := 0;
    while idx < |skills|
      invariant 0 <= idx <= |skills|
      invariant forall k :: 0 <= k < idx ==> skills[k].id != skillId
    {
      if skills[idx].id == skillId {
        return;
      }
      idx := idx + 1;
    }
    idx := -1;
  }

  /** `roadmaps.findIndex(r => r.id === roadmapId)`. */
  method FindRoadmapIndex(roadmaps: seq<LocalRoadmap>, roadmapId: string) returns (idx: int)
    ensures idx == FirstRoadmapIndex(roadmaps, roadmapId)
  {
    idx := 0;
    while idx < |roadmaps|
      invariant 0 <= idx <= |roadmaps|
      invariant forall k :: 0 <= k < idx ==> roadmaps[k].id != roadmapId
    {
      if roadmaps[idx].id == roadmapId {
        return;
      }
      idx := idx + 1;
    }
    idx := -1;
  }

  /** The skill list after skill `i` is marked concluded at `now`: that entry alone changes,
      and only in its status and date. */
  function Marked(skills: seq<LocalRoadmapSkill>, i: nat, now: int): (r: seq<LocalRoadmapSkill>)
    requires i < |skills|
    ensures |r| == |skills|
    ensures r[i].status == Concluido && r[i].dataConclusao == Some(now)
    ensures r[i].(status := skills[i].status, dataConclusao := skills[i].dataConclusao) == skills[i]
    ensures forall k :: 0 <= k < |r| && k != i ==> r[k] == skills[k]
  {
    skills[i := skills[i].(status := Concluido, dataConclusao := Some(now))]
  }

  /** `skills.filter(s => s.status === 'concluido').length`. */
  function CountConcluded(skills: seq<LocalRoadmapSkill>): (n: nat)
    ensures n <= |skills|
  {
    if skills == [] then 0
    else CountConcluded(skills[..|skills| - 1]) + (if skills[|skills| - 1].status == Concluido then 1 else 0)
  }

  /** Marking a skill adds one to the count of concluded skills, unless it was concluded already. */
  lemma {:induction false} MarkingCounts(skills: seq<LocalRoadmapSkill>, i: nat, now: int)
    requires i < |skills|
    ensures CountConcluded(Marked(skills, i, now)) ==
              CountConcluded(skills) + (if skills[i].status == Concluido then 0 else 1)
    decreases |skills|
  {
    var m := Marked(skills, i, now);
    var n := |skills| - 1;
    if i < n {
      assert m[..n] == Marked(skills[..n], i, now);
      MarkingCounts(skills[..n], i, now);
    } else {
      assert m[..n] == skills[..n];
    }
  }

  /** The roadmap list after `atualizarProgresso`: the first roadmap with that id gets the new
      percentage and update date; nothing is stored when nothing was. */
  function WithProgress(entry: Option<seq<LocalRoadmap>>, roadmapId: string, progresso: int, now: int)
    : (r: Option<seq<LocalRoadmap>>)
    ensures r.None? <==> entry.None?
    ensures r.Some? ==> |r.value| == |entry.value|
    ensures r.Some? ==> var i := FirstRoadmapIndex(entry.value, roadmapId);
            && (forall k :: 0 <= k < |r.value| && k != i ==> r.value[k] == entry.value[k])
            && (i >= 0 ==> r.value[i] == entry.value[i].(progressoPercentual := progresso, dataAtualizacao := now))
  {
    match entry
    case None => None
    case Some(rs) =>
      var i := FirstRoadmapIndex(rs, roadmapId);
      if i == -1 then entry
      else Some(rs[i := rs[i].(progressoPercentual := progresso, dataAtualizacao := now)])
  }

  /** The roadmap that gets the new percentage is one with the requested id, and the ids of the
      list do not change. */
  lemma {:induction false} ProgressUpdateTouchesOnlyMatch(rs: seq<LocalRoadmap>, roadmapId: string, progresso: int, now: int, k: nat)
    requires k < |rs|
    ensures var r := WithProgress(Some(rs), roadmapId, progresso, now).value;
            r[k].id == rs[k].id
            && (r[k] != rs[k] ==> rs[k].id == roadmapId && r[k].progressoPercentual == progresso)
  {
  }

  // ---------------------------------------------------------------------------
  // The store
  // ---------------------------------------------------------------------------

  class RoadmapService {
    /** The list under `skillmap_roadmaps`; `None` while nothing is stored there. */
    var roadmapsEntry: Option<seq<LocalRoadmap>>
    /** The lists under `skillmap_roadmaps_skills_<roadmap id>`, by roadmap id. */
    var skillEntries: map<string, seq<LocalRoadmapSkill>>

    /** A store with nothing saved. */
    constructor ()
      ensures roadmapsEntry == None && skillEntries == map[]
    {
      roadmapsEntry := None;
      skillEntries := map[];
    }

    /** `carregarRoadmaps`: the stored roadmaps of one user, in stored order; `[]` when nothing
        is stored. */
    function CarregarRoadmaps(usuarioId: string): (rs: seq<LocalRoadmap>)
      reads this
      ensures roadmapsEntry.None? ==> rs == []
      ensures roadmapsEntry.Some? ==> forall x :: x in rs <==> x in roadmapsEntry.value && x.usuarioId == usuarioId
    {
      match roadmapsEntry
      case None => []
      case Some(all) => RoadmapsOf(all, usuarioId)
    }

    /** `carregarRoadmapSkills`: the stored skills of a roadmap, `[]` when there are none. */
    function CarregarRoadmapSkills(roadmapId: string): seq<LocalRoadmapSkill>
      reads this
    {
      if roadmapId in skillEntries then skillEntries[roadmapId] else []
    }

    /**
     * `criarRoadmap`. `aiSkills` is what the text-generation call produced (`None` when the
     * mock is used); `roadmapId` and `now` stand for the random id and the clock. With no
     * skill nothing is stored; otherwise one roadmap at 0% is appended and its pending skills
     * are stored under its own key.
     */
    method CriarRoadmap(usuarioId: string, dto: CriarRoadmapDto, aiSkills: Option<seq<PoolSkill>>,
                        roadmapId: string, now: int) returns (result: RoadmapResult)
      modifies this
      ensures GeneratedSkills(dto, aiSkills) == [] ==>
                result == NotCreated(NoSkillsGenerated)
                && roadmapsEntry == old(roadmapsEntry) && skillEntries == old(skillEntries)
      ensures GeneratedSkills(dto, aiSkills) != [] ==>
                && result == Created(LocalRoadmap(roadmapId, usuarioId, dto.nomeCarreira, 0, now, now),
                                     LinksFor(roadmapId, GeneratedSkills(dto, aiSkills)))
                && roadmapsEntry == Some(old(roadmapsEntry).GetOr([]) + [result.roadmap])
                && skillEntries == old(skillEntries)[roadmapId := result.skills]
    {
      var skills := GeneratedSkills(dto, aiSkills);
      if |skills| == 0 {
        return NotCreated(NoSkillsGenerated);
      }
      var novo := LocalRoadmap(roadmapId, usuarioId, dto.nomeCarreira, 0, now, now);
      var all := roadmapsEntry.GetOr([]);
      roadmapsEntry := Some(all + [novo]);
      var links := LinksFor(roadmapId, skills);
      skillEntries := skillEntries[roadmapId := links];
      result := Created(novo, links);
    }

    /**
     * `marcarSkillConcluida`: without a stored list for the roadmap, or without a skill of that
     * id, nothing changes and the answer is a failure. Otherwise the first skill with that id
     * becomes concluded at `now`, the roadmap's percentage becomes the rounded share of
     * concluded skills, and 50 XP are granted.
     */
    method MarcarSkillConcluida(roadmapId: string, skillId: string, now: int)
      returns (success: bool, xpGanho: Option<int>)
      modifies this
      ensures success <==> roadmapId in old(skillEntries) && FirstSkillIndex(old(skillEntries)[roadmapId], skillId) >= 0
      ensures !success ==> xpGanho == None && roadmapsEntry == old(roadmapsEntry) && skillEntries == old(skillEntries)
      ensures success ==>
                var list := old(skillEntries)[roadmapId];
                var marked := Marked(list, FirstSkillIndex(list, skillId), now);
                && xpGanho == Some(XpPorSkillConcluida)
                && skillEntries == old(skillEntries)[roadmapId := marked]
                && roadmapsEntry == WithProgress(old(roadmapsEntry), roadmapId,
                                                 RoundedPercent(CountConcluded(marked), |list|), now)
    {
      if roadmapId !in skillEntries {
        return false, None;
      }
      var skills := skillEntries[roadmapId];
      var idx := FindSkillIndex(skills, skillId);
      if idx == -1 {
        return false, None;
      }
      skills := Marked(skills, idx, now);
      skillEntries := skillEntries[roadmapId := skills];
      var progresso := RoundedPercent(CountConcluded(skills), |skills|);
      AtualizarProgresso(roadmapId, progresso, now);
      success, xpGanho := true, Some(XpPorSkillConcluida);
    }

    /** `atualizarProgresso`: the first roadmap with that id gets the percentage and the date;
        the skill lists are not touched. */
    method AtualizarProgresso(roadmapId: string, progresso: int, now: int)
      modifies this
      ensures roadmapsEntry == WithProgress(old(roadmapsEntry), roadmapId, progresso, now)
      ensures skillEntries == old(skillEntries)
    {
      if roadmapsEntry.None? {
        return;
      }
      var roadmaps := roadmapsEntry.value;
      var index := FindRoadmapIndex(roadmaps, roadmapId);
      if index != -1 {
        roadmaps := roadmaps[index := roadmaps[index].(progressoPercentual := progresso, dataAtualizacao := now)];
        roadmapsEntry := Some(roadmaps);
      }
    }

    /** `deletarRoadmap`: `false` and no change when nothing is stored; otherwise every roadmap
        with that id leaves the list and its skill list is removed. */
    method DeletarRoadmap(roadmapId: string) returns (deleted: bool)
      modifies this
      ensures deleted <==> old(roadmapsEntry).Some?
      ensures !deleted ==> roadmapsEntry == old(roadmapsEntry) && skillEntries == old(skillEntries)
      ensures deleted ==> roadmapsEntry == Some(WithoutRoadmap(old(roadmapsEntry).value, roadmapId))
      ensures deleted ==> skillEntries == old(skillEntries) - {roadmapId}
    {
      if roadmapsEntry.None? {
        return false;
      }
      roadmapsEntry := Some(WithoutRoadmap(roadmapsEntry.value, roadmapId));
      skillEntries := skillEntries - {roadmapId};
      deleted := true;
    }
  }

  // ---------------------------------------------------------------------------
  // Properties of the store's operations
  // ---------------------------------------------------------------------------

  /** A created roadmap's skills: one per generated skill, in order, all pending, and no two
      with the same id. */
  lemma {:induction false} CreatedSkills(roadmapId: string, skills: seq<PoolSkill>)
    ensures var links := LinksFor(roadmapId, skills);
            && |links| == |skills|
            && (forall k :: 0 <= k < |links| ==>
                  links[k].skill == skills[k] && links[k].status == Pendente && links[k].roadmapId == roadmapId
                  && links[k].dataConclusao.None?)
            && (forall i, j :: 0 <= i < j < |links| ==> links[i].id != links[j].id)
  {
    var links := LinksFor(roadmapId, skills);
    forall i, j | 0 <= i < j < |links|
      ensures links[i].id != links[j].id
    {
      if links[i].id == links[j].id {
        LinkIdsDistinct(roadmapId, i, j);
      }
    }
  }

  /** A roadmap appended for a user is the last one `carregarRoadmaps` lists for that user, after
      the ones listed before. */
  lemma {:induction false} CreatedRoadmapIsLoaded(all: seq<LocalRoadmap>, novo: LocalRoadmap)
    ensures RoadmapsOf(all + [novo], novo.usuarioId) == RoadmapsOf(all, novo.usuarioId) + [novo]
  {
    assert (all + [novo])[..|all|] == all;
  }

  /** After a deletion no roadmap with that id is loaded for anyone, and every other roadmap of
      the user still is. */
  lemma {:induction false} DeletedRoadmapNotLoaded(all: seq<LocalRoadmap>, roadmapId: string, usuarioId: string)
    ensures forall x :: x in RoadmapsOf(WithoutRoadmap(all, roadmapId), usuarioId) <==>
              x in RoadmapsOf(all, usuarioId) && x.id != roadmapId
  {
  }

  /** The percentage stored by `marcarSkillConcluida` lies in 0..100 and is 100 once every skill
      of the roadmap is concluded. */
  lemma {:induction false} MarkedProgressInRange(skills: seq<LocalRoadmapSkill>, i: nat, now: int)
    requires i < |skills|
    ensures 0 <= RoundedPercent(CountConcluded(Marked(skills, i, now)), |skills|) <= 100
    ensures CountConcluded(skills) + 1 == |skills| && skills[i].status != Concluido ==>
              RoundedPercent(CountConcluded(Marked(skills, i, now)), |skills|) == 100
  {
    MarkingCounts(skills, i, now);
  }
}
