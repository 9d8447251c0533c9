/**
 * The level arithmetic of the app's home screen (`HomeScreen`): the user's current level from
 * their XP and the level table, the next level, the progress towards it, and the split of the
 * user's roadmaps into active and concluded ones.
 *
 * The next-level lookup compares a `level` field that the table's entries do not have, so it
 * always finds the first entry; both that behaviour and the lookup by level number are
 * modelled, and so are the two progress computations built on them.
 */
module HomeLevels {
  import opened Wrappers
  import opened Records
  import opened Percent

  /** An entry of `GAMIFICATION.niveis`. */
  datatype Nivel = Nivel(nivel: nat, xpNecessario: nat, titulo: string)

  /** `GAMIFICATION.niveis`, in increasing XP order. */
  const Niveis: seq<Nivel> := [
    Nivel(1, 0, "Iniciante"),
    Nivel(2, 500, "Aprendiz"),
    Nivel(3, 1500, "Praticante"),
    Nivel(4, 3000, "Especialista"),
    Nivel(5, 5000, "Mestre")
  ]

  /** The table's thresholds strictly increase, starting at 0. */
  lemma {:induction false} NiveisIncreasing()
    ensures |Niveis| == 5 && Niveis[0].xpNecessario == 0
    ensures forall i, j :: 0 <= i < j < |Niveis| ==> Niveis[i].xpNecessario < Niveis[j].xpNecessario
    ensures forall i :: 0 <= i < |Niveis| ==> Niveis[i].nivel == i + 1
  {
  }

  /** The index of the current level: the last entry whose threshold the XP reaches, or the
      first entry when none is reached. */
  function LevelIndex(xp: int): (i: nat)
    ensures i < |Niveis|
    ensures xp >= 0 ==> Niveis[i].xpNecessario <= xp
    ensures xp < 0 ==> i == 0
    ensures forall j :: i < j < |Niveis| ==> Niveis[j].xpNecessario > xp
  {
    if xp >= 5000 then 4
    else if xp >= 3000 then 3
    else if xp >= 1500 then 2
    else if xp >= 500 then 1
    else 0
  }

  /** `getNivelAtual`: `null` without a user; otherwise the table is scanned from its last entry
      down and the first entry whose threshold the XP reaches is returned, the first entry when
      none is. */
  method GetNivelAtual(currentXp: Option<int>) returns (r: Option<Nivel>)
    ensures r.None? <==> currentXp.None?
    ensures r.Some? ==> r.value == Niveis[LevelIndex(currentXp.value)]
  {
    if currentXp.None? {
      return None;
    }
    var xp := currentXp.value;
    var i := |Niveis| - 1;
    while i >= 0
      invariant -1 <= i < |Niveis|
      invariant forall j :: i < j < |Niveis| ==> Niveis[j].xpNecessario > xp
    {
      if xp >= Niveis[i].xpNecessario {
        return Some(Niveis[i]);
      }
      i := i - 1;
    }
    return Some(Niveis[0]);
  }

  /** The current level as a value, for the functions below. */
  function NivelAtual(currentXp: Option<int>): (r: Option<Nivel>)
    ensures r.None? <==> currentXp.None?
    ensures r.Some? ==> r.value in Niveis
  {
    match currentXp
    case None => None
    case Some(xp) => Some(Niveis[LevelIndex(xp)])
  }

  // ---------------------------------------------------------------------------
  // The next level
  // ---------------------------------------------------------------------------

  /** The `level` field the lookup reads: the table's entries have none, so it is `undefined`
      for every entry, the current one included. */
  function LevelField(n: Nivel): Option<int> {
    None
  }

  /** `findIndex` over a list of field values: the first position holding `target`, or -1. */
  function FirstIndexOf(fields: seq<Option<int>>, target: Option<int>): (i: int)
    ensures -1 <= i < |fields|
    ensures i >= 0 ==> fields[i] == target && forall k :: 0 <= k < i ==> fields[k] != target
    ensures i == -1 <==> forall k :: 0 <= k < |fields| ==> fields[k] != target
  {
    if fields == [] then -1
    else if fields[0] == target then 0
    else
      var j := FirstIndexOf(fields[1..], target);
      if j == -1 then -1 else j + 1
  }

  /** `getProximoNivel` as written: the entry after the one whose `level` field equals the
      current level's, or `null`. */
  function ProximoNivelAsWritten(currentXp: Option<int>): (r: Option<Nivel>)
    ensures currentXp.None? ==> r.None?
  {
    match NivelAtual(currentXp)
    case None => None
    case Some(atual) =>
      var fields := seq(|Niveis|, k requires 0 <= k < |Niveis| => LevelField(Niveis[k]));
      var index := FirstIndexOf(fields, LevelField(atual));
      if 0 <= index + 1 < |Niveis| then Some(Niveis[index + 1]) else None
  }

  /** As written, the next level is `Aprendiz` whatever the user's XP: the lookup always stops
      at the first entry. */
  lemma {:induction false} NextLevelAlwaysAprendiz(xp: int)
    ensures ProximoNivelAsWritten(Some(xp)) == Some(Niveis[1])
    ensures Niveis[1].titulo == "Aprendiz"
  {
  }

  /** The next level by level number: the entry after the current one, `None` at the top. */
  function ProximoNivel(currentXp: Option<int>): (r: Option<Nivel>)
    ensures currentXp.None? ==> r.None?
    ensures currentXp.Some? ==> (r.None? <==> LevelIndex(currentXp.value) == |Niveis| - 1)
    ensures r.Some? ==> r.value.nivel == NivelAtual(currentXp).value.nivel + 1
                        && r.value.xpNecessario > currentXp.value
  {
    match currentXp
    case None => None
    case Some(xp) =>
      var index := LevelIndex(xp);
      if index + 1 < |Niveis| then Some(Niveis[index + 1]) else None
  }

  /** The two lookups agree exactly below 500 XP: from `Aprendiz` up, the next level as written
      is not the one after the current level. */
  lemma {:induction false} NextLevelAsWrittenWrongFromAprendiz(xp: int)
    ensures ProximoNivelAsWritten(Some(xp)) == ProximoNivel(Some(xp)) <==> xp < 500
  {
    NextLevelAlwaysAprendiz(xp);
  }

  // ---------------------------------------------------------------------------
  // Progress towards the next level
  // ---------------------------------------------------------------------------

  /** A JavaScript number as the progress computation can produce it. */
  datatype JsNumber = Finite(value: int) | NaN | PosInfinity | NegInfinity

  /** `Math.floor(n / d)` for whole numbers, `d` non-zero. */
  function FloorDiv(n: int, d: int): (q: int)
    requires d != 0
    ensures d > 0 ==> d * q <= n < d * (q + 1)
    ensures d < 0 ==> d * q >= n > d * (q + 1)
  {
    if d > 0 then n / d else (-n) / (-d)
  }

  /** `Math.round(x / y * 100)` on the exact quotient, for whole `x` and `y`: `y` zero gives `NaN`
      or an infinity. */
  function RoundPercent(x: int, y: int): (r: JsNumber)
    ensures y == 0 <==> !r.Finite?
    ensures y == 0 ==> (r == NaN <==> x == 0) && (r == PosInfinity <==> x > 0)
    ensures y > 0 ==> 2 * y * r.value <= 200 * x + y < 2 * y * (r.value + 1)
    ensures y < 0 ==> 2 * y * r.value >= 200 * x + y > 2 * y * (r.value + 1)
  {
    if y == 0 then (if x == 0 then NaN else if x > 0 then PosInfinity else NegInfinity)
    else Finite(FloorDiv(200 * x + y, 2 * y))
  }

  /** `calcularProgressoNivel` as written: 0 without a user, current or next level; otherwise the
      rounded share of the way from the current level's threshold to the next level's, the
      next level being the one `getProximoNivel` returns. */
  function ProgressoAsWritten(currentXp: Option<int>): (r: JsNumber)
    ensures currentXp.None? ==> r == Finite(0)
  {
    var atual := NivelAtual(currentXp);
    var proximo := ProximoNivelAsWritten(currentXp);
    if atual.None? || proximo.None? then Finite(0)
    else
      var xpNoNivelAtual := currentXp.value - atual.value.xpNecessario;
      var xpParaProximo := proximo.value.xpNecessario - atual.value.xpNecessario;
      RoundPercent(xpNoNivelAtual, xpParaProximo)
  }

  /** As written, a user with 2000 XP (level 3) gets -50% progress, one with exactly 500 XP gets
      `NaN` and one with 700 XP gets `Infinity`. */
  lemma {:induction false} ProgressAsWrittenOutOfRange()
    ensures NivelAtual(Some(2000)) == Some(Niveis[2])
    ensures ProgressoAsWritten(Some(2000)) == Finite(-50)
    ensures ProgressoAsWritten(Some(500)) == NaN
    ensures ProgressoAsWritten(Some(700)) == PosInfinity
  {
    NextLevelAlwaysAprendiz(2000);
    NextLevelAlwaysAprendiz(500);
    NextLevelAlwaysAprendiz(700);
    assert FloorDiv(200 * 500 - 1000, -2000) == -50;
  }

  /** Below level 2 the next level as written is the right one, so the progress is right. */
  lemma {:induction false} ProgressAsWrittenAgreesBelowAprendiz(xp: int)
    requires 0 <= xp < 500
    ensures ProgressoAsWritten(Some(xp)) == Finite(Progresso(Some(xp)))
  {
    NextLevelAlwaysAprendiz(xp);
  }

  /** Progress with the next level looked up by level number: 0 without a user or at the top
      level, otherwise the rounded share of the way to the next threshold, within 0..100. */
  function Progresso(currentXp: Option<int>): (r: int)
    ensures currentXp.None? ==> r == 0
    ensures currentXp.Some? && currentXp.value >= 0 ==> 0 <= r <= 100
    ensures currentXp.Some? && LevelIndex(currentXp.value) == |Niveis| - 1 ==> r == 0
    ensures currentXp.Some? && currentXp.value >= 0 && ProximoNivel(currentXp).Some? ==>
              var cur := NivelAtual(currentXp).value.xpNecessario;
              var gap := ProximoNivel(currentXp).value.xpNecessario - cur;
              2 * gap * r <= 200 * (currentXp.value - cur) + gap < 2 * gap * (r + 1)
  {
    var atual := NivelAtual(currentXp);
    var proximo := ProximoNivel(currentXp);
    if atual.None? || proximo.None? then 0
    else
      var x := currentXp.value - atual.value.xpNecessario;
      var y := proximo.value.xpNecessario - atual.value.xpNecessario;
      RoundedPercent(x, y)
  }

  // ---------------------------------------------------------------------------
  // Active and concluded roadmaps
  // ---------------------------------------------------------------------------

  /** `roadmaps.filter(r => r.percentualProgress < 100)`. */
  function Ativos(roadmaps: seq<Roadmap>): (r: seq<Roadmap>)
    ensures |r| <= |roadmaps|
    ensures forall x :: x in r <==> x in roadmaps && x.percentualProgress < 100
  {
    if roadmaps == [] then []
    else
      var x := roadmaps[|roadmaps| - 1];
      var rest := Ativos(roadmaps[..|roadmaps| - 1]);
      assert roadmaps == roadmaps[..|roadmaps| - 1] + [x];
      if x.percentualProgress < 100 then rest + [x] else rest
  }

  /** `roadmaps.filter(r => r.percentualProgress === 100)`. */
  function Concluidos(roadmaps: seq<Roadmap>): (r: seq<Roadmap>)
    ensures |r| <= |roadmaps|
    ensures forall x :: x in r <==> x in roadmaps && x.percentualProgress == 100
  {
    if roadmaps == [] then []
    else
      var x := roadmaps[|roadmaps| - 1];
      var rest := Concluidos(roadmaps[..|roadmaps| - 1]);
      assert roadmaps == roadmaps[..|roadmaps| - 1] + [x];
      if x.percentualProgress == 100 then rest + [x] else rest
  }

  /** No roadmap is both active and concluded, and a roadmap whose progress is within 0..100 is
      one of the two; together they never list more roadmaps than there are. */
  lemma {:induction false} ActiveAndConcludedPartition(roadmaps: seq<Roadmap>)
    ensures forall x :: !(x in Ativos(roadmaps) && x in Concluidos(roadmaps))
    ensures forall x :: x in roadmaps && x.percentualProgress <= 100 ==> x in Ativos(roadmaps) || x in Concluidos(roadmaps)
    ensures |Ativos(roadmaps)| + |Concluidos(roadmaps)| <= |roadmaps|
  {
    if roadmaps != [] {
      ActiveAndConcludedPartition(roadmaps[..|roadmaps| - 1]);
    }
  }
}
