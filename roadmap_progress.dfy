/**
 * The two progress endpoints of the backend's roadmap controller: `updateSkillProgress`,
 * which toggles a link's completion, and `updateMilestoneProgress`, which sets the
 * `completed` flag of one milestone in a link's milestone list, in place.
 *
 * The database lookups are parameters: the link the query found (if any) and, for the
 * milestone endpoint, its owner and roadmap. The clock is the parameter `now`.
 */
module RoadmapProgress {
  import opened Wrappers
  import opened Seqs
  import opened Text
  import opened Records

  // ---------------------------------------------------------------------------
  // updateSkillProgress
  // ---------------------------------------------------------------------------

  /** The 404 message when the caller's link is not found. */
  const SkillNotFound: string := "Skill não encontrada ou acesso negado."

  /** `updateSkillProgress`: the completion flag is negated; the conclusion date is `now` when
      the link becomes concluded and null otherwise; nothing else changes. A missing link is a 404. */
  function ToggleSkillProgress(current: Option<RoadmapLink>, now: int): (r: Result<RoadmapLink, string>)
    ensures r.Failure? <==> current.None?
    ensures r.Failure? ==> r.error == SkillNotFound
    ensures r.Success? ==> r.value.isConcluded == !current.value.isConcluded
    ensures r.Success? ==> (r.value.conclusionDate.Some? <==> r.value.isConcluded)
    ensures r.Success? && r.value.isConcluded ==> r.value.conclusionDate == Some(now)
    ensures r.Success? ==>
              r.value.(isConcluded := current.value.isConcluded, conclusionDate := current.value.conclusionDate) == current.value
  {
    match current
    case None => Failure(SkillNotFound)
    case Some(link) =>
      var becomes := !link.isConcluded;
      Success(link.(isConcluded := becomes, conclusionDate := if becomes then Some(now) else None))
  }

  /** Toggling twice restores the flag; the date is then the second call's clock, or null. */
  lemma {:induction false} ToggleTwice(link: RoadmapLink, t1: int, t2: int)
    ensures var once := ToggleSkillProgress(Some(link), t1).value;
            var twice := ToggleSkillProgress(Some(once), t2).value;
            twice.isConcluded == link.isConcluded
            && twice.conclusionDate == (if link.isConcluded then Some(t2) else None)
            && twice.(conclusionDate := link.conclusionDate) == link
  {
  }

  // ---------------------------------------------------------------------------
  // parseInt(level, 10)
  // ---------------------------------------------------------------------------

  /** The text after the leading white space and an optional sign. */
  function Unsigned(t: string): string {
    if |t| > 0 && (t[0] == '+' || t[0] == '-') then t[1..] else t
  }

  /** JavaScript `parseInt(s, 10)`: leading white space is skipped, then an optional sign, then
      the longest run of decimal digits; `None` (NaN) when that run is empty. */
  function ParseIntDecimal(s: string): (r: Option<int>)
    ensures r.Some? <==> DigitRun(Unsigned(TrimStart(s))) > 0
  {
    ParseIntTrimmed(TrimStart(s))
  }

  /** What `parseInt` reads once the leading white space is gone. */
  function ParseIntTrimmed(t: string): (r: Option<int>)
    ensures r.Some? <==> DigitRun(Unsigned(t)) > 0
  {
    var u := Unsigned(t);
    var n := DigitRun(u);
    if n == 0 then None
    else
      var v := DigitsValue(u[..n]);
      Some(if |t| > 0 && t[0] == '-' then -(v as int) else v as int)
  }

  /** A run of digits ends where the digits end. */
  lemma {:induction false} DigitRunOfDigits(d: string, tail: string)
    requires IsDigits(d)
    requires tail == [] || !IsDigit(tail[0])
    ensures DigitRun(d + tail) == |d|
  {
    var x := d + tail;
    forall k | 0 <= k < |d| ensures IsDigit(x[k]) {
      assert x[k] == d[k];
    }
    if |d| < |x| {
      assert x[|d|] == tail[0];
    }
    DigitRunUnique(x, |d|);
  }

  /** `parseInt` reads back the decimal rendering of a number, with or without a minus sign,
      and ignores whatever follows the digits. */
  lemma {:induction false} ParseIntReadsRendering(s: string, n: nat, negative: bool, tail: string)
    requires tail == [] || !IsDigit(tail[0])
    requires s == (if negative then "-" else "") + NatToString(n) + tail
    ensures ParseIntDecimal(s) == Some(if negative then -(n as int) else n as int)
  {
    RenderingIsSignedDigits(s, n, negative, tail);
    ParseIntReadsDigits(s, NatToString(n), negative, tail);
  }

  lemma {:induction false} RenderingIsSignedDigits(s: string, n: nat, negative: bool, tail: string)
    requires tail == [] || !IsDigit(tail[0])
    requires s == (if negative then "-" else "") + NatToString(n) + tail
    ensures SignedDigits(s, NatToString(n), negative, tail)
  {
  }

  /** `s` is an optional minus sign, then the digits `d`, then text that does not start with a digit. */
  predicate SignedDigits(s: string, d: string, negative: bool, tail: string) {
    && |d| > 0 && IsDigits(d)
    && (tail == [] || !IsDigit(tail[0]))
    && s == (if negative then "-" else "") + d + tail
  }

  /** `parseInt` reads a run of digits, optionally after a minus sign, as their value. */
  lemma {:induction false} ParseIntReadsDigits(s: string, d: string, negative: bool, tail: string)
    requires SignedDigits(s, d, negative, tail)
    ensures ParseIntDecimal(s) == Some(if negative then -(DigitsValue(d) as int) else DigitsValue(d) as int)
  {
    if negative {
      SeqAssoc("-", d, tail);
      ParseIntReadsNegative(s, d, tail);
    } else {
      EmptyConcat(d);
      ParseIntReadsPositive(s, d, tail);
    }
  }

  lemma {:induction false} ParseIntReadsPositive(s: string, d: string, tail: string)
    requires |d| > 0 && IsDigits(d)
    requires tail == [] || !IsDigit(tail[0])
    requires s == d + tail
    ensures ParseIntDecimal(s) == Some(DigitsValue(d) as int)
  {
    DigitRunPrefix(d, tail);
    assert s[0] == d[0];
    TrimStartFixed(s);
  }

  lemma {:induction false} ParseIntReadsNegative(s: string, d: string, tail: string)
    requires |d| > 0 && IsDigits(d)
    requires tail == [] || !IsDigit(tail[0])
    requires s == "-" + (d + tail)
    ensures ParseIntDecimal(s) == Some(-(DigitsValue(d) as int))
  {
    DigitRunPrefix(d, tail);
    NegativeShape(s, d + tail);
  }

  /** The run of digits at the start of `d + tail` is `d`. */
  lemma {:induction false} DigitRunPrefix(d: string, tail: string)
    requires IsDigits(d)
    requires tail == [] || !IsDigit(tail[0])
    ensures DigitRun(d + tail) == |d| && (d + tail)[..DigitRun(d + tail)] == d
  {
    DigitRunOfDigits(d, tail);
    assert (d + tail)[..|d|] == d;
  }

  lemma {:induction false} NegativeShape(s: string, u: string)
    requires s == "-" + u
    ensures |s| > 0 && s[0] == '-' && s[1..] == u && TrimStart(s) == s
  {
    assert s[0] == '-';
    assert s[1..] == u;
    assert !IsWhitespace(s[0]);
    TrimStartFixed(s);
  }

  /** Leading white space does not change what `parseInt` reads. */
  lemma {:induction false} ParseIntSkipsLeadingWhitespace(w: string, s: string)
    requires AllWhitespace(w)
    ensures ParseIntDecimal(w + s) == ParseIntDecimal(s)
  {
    TrimStartAfterWhitespace(w, s);
  }

  // ---------------------------------------------------------------------------
  // updateMilestoneProgress
  // ---------------------------------------------------------------------------

  /** `milestones.findIndex(m => m.level === level)`. */
  method FindMilestoneIndex(ms: seq<Milestone>, level: int) returns (idx: int)
    ensures -1 <= idx < |ms|
    ensures idx == -1 <==> forall k :: 0 <= k < |ms| ==> ms[k].level != level
    ensures idx >= 0 ==> ms[idx].level == level && forall k :: 0 <= k < idx ==> ms[k].level != level
  {
    idx := 0;
    while idx < |ms|
      invariant 0 <= idx <= |ms|
      invariant forall k :: 0 <= k < idx ==> ms[k].level != level
    {
      if ms[idx].level == level {
        return;
      }
      idx := idx + 1;
    }
    idx := -1;
  }

  /** `milestones[findIndex(...)].completed = completed`: only the first milestone of that level
      changes, and only its flag; the index is -1 and nothing changes when there is none. */
  method SetMilestoneCompleted(ms: array<Milestone>, level: int, completed: bool) returns (idx: int)
    modifies ms
    ensures -1 <= idx < ms.Length
    ensures idx == -1 <==> forall k :: 0 <= k < ms.Length ==> old(ms[k]).level != level
    ensures idx == -1 ==> ms[..] == old(ms[..])
    ensures idx >= 0 ==> old(ms[idx]).level == level && forall k :: 0 <= k < idx ==> old(ms[k]).level != level
    ensures idx >= 0 ==> ms[idx] == old(ms[idx]).(completed := completed)
    ensures forall k :: 0 <= k < ms.Length && k != idx ==> ms[k] == old(ms[k])
  {
    idx := FindMilestoneIndex(ms[..], level);
    if idx >= 0 {
      ms[idx] := ms[idx].(completed := completed);
    }
  }

  /** Where the milestone's link was found, if anywhere: its owner and its roadmap. */
  datatype LinkLookup = NoLink | FoundLink(ownerId: string, roadmapId: string)

  /** The endpoint's answer: a refusal, or the index of the updated milestone. */
  datatype MilestoneOutcome = Refused(status: nat, message: string) | Updated(index: nat)

  const CompletedNotBoolean: string := "O campo \"completed\" deve ser um booleano"
  const InvalidLevel: string := "Nível do milestone inválido"
  const LinkNotFound: string := "Skill não encontrada neste roadmap"
  const AccessDenied: string := "Acesso negado"
  const LinkNotInRoadmap: string := "Skill não pertence a este roadmap"
  const MilestoneNotFound: string := "Milestone não encontrado"

  /**
   * `updateMilestoneProgress`. `completed` is `None` when the body's field is not a boolean;
   * `milestones` is the link's milestone list (an empty one when the column is null), which is
   * updated in place. The checks run in the source's order and each refusal leaves the list alone.
   */
  method UpdateMilestoneProgress(completed: Option<bool>, levelParam: string, lookup: LinkLookup,
                                 userId: string, roadmapId: string, milestones: array<Milestone>)
    returns (outcome: MilestoneOutcome)
    modifies milestones
    ensures completed.None? ==> outcome == Refused(400, CompletedNotBoolean)
    ensures completed.Some? && ParseIntDecimal(levelParam).None? ==> outcome == Refused(400, InvalidLevel)
    ensures completed.Some? && ParseIntDecimal(levelParam).Some? ==>
              (lookup.NoLink? ==> outcome == Refused(404, LinkNotFound))
              && (lookup.FoundLink? && lookup.ownerId != userId ==> outcome == Refused(403, AccessDenied))
              && (lookup.FoundLink? && lookup.ownerId == userId && lookup.roadmapId != roadmapId ==>
                    outcome == Refused(404, LinkNotInRoadmap))
    ensures completed.Some? && ParseIntDecimal(levelParam).Some? && lookup == FoundLink(userId, roadmapId) ==>
              (outcome.Updated? <==>
                 exists k :: 0 <= k < milestones.Length && old(milestones[k]).level == ParseIntDecimal(levelParam).value)
              && (outcome.Refused? ==> outcome == Refused(404, MilestoneNotFound))
    ensures outcome.Refused? ==> milestones[..] == old(milestones[..])
    ensures outcome == Refused(404, MilestoneNotFound) ==>
              forall k :: 0 <= k < milestones.Length ==> milestones[k].level != ParseIntDecimal(levelParam).value
    ensures outcome.Updated? ==>
              && completed.Some? && ParseIntDecimal(levelParam).Some?
              && lookup == FoundLink(userId, roadmapId)
              && outcome.index < milestones.Length
              && old(milestones[outcome.index]).level == ParseIntDecimal(levelParam).value
              && (forall k :: 0 <= k < outcome.index ==> old(milestones[k]).level != ParseIntDecimal(levelParam).value)
              && milestones[outcome.index] == old(milestones[outcome.index]).(completed := completed.value)
              && forall k :: 0 <= k < milestones.Length && k != outcome.index ==> milestones[k] == old(milestones[k])
  {
    if completed.None? {
      return Refused(400, CompletedNotBoolean);
    }
    var level := ParseIntDecimal(levelParam);
    if level.None? {
      return Refused(400, InvalidLevel);
    }
    match lookup {
      case NoLink =>
        return Refused(404, LinkNotFound);
      case FoundLink(owner, linkRoadmap) =>
        if owner != userId {
          return Refused(403, AccessDenied);
        }
        if linkRoadmap != roadmapId {
          return Refused(404, LinkNotInRoadmap);
        }
    }
    var idx := SetMilestoneCompleted(milestones, level.value, completed.value);
    if idx == -1 {
      return Refused(404, MilestoneNotFound);
    }
    outcome := Updated(idx);
  }
}
