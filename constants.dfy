/**
 * The closed vocabularies: the user types declared in app/core/constants.py,
 * and the four level-1 ability keys, which the services write out as literals
 * (app/services/task_processor.py:6-11, app/services/plan_rule_engine.py:17-22).
 */
module Constants {
  import opened Options

  /** The four user types; every profile is assigned exactly one. */
  datatype UserType = Advantage | Potential | Special | Growth

  /** The string value each user type carries in the service. */
  function Label(t: UserType): (r: string)
  {
    match t
    case Advantage => "优势倾向型"
    case Potential => "潜能倾向型"
    case Special => "专项优势型"
    case Growth => "蓄力成长型"
  }

  /** Reads a user-type string back; any other string is not a user type. */
  function Parse(s: string): (r: Option<UserType>)
    ensures r.Some? ==> Label(r.value) == s
  {
    if s == Label(Advantage) then Some(Advantage)
    else if s == Label(Potential) then Some(Potential)
    else if s == Label(Special) then Some(Special)
    else if s == Label(Growth) then Some(Growth)
    else None
  }

  /** Parsing undoes labelling, so the four labels are pairwise distinct. */
  lemma ParseLabel(t: UserType)
    ensures Parse(Label(t)) == Some(t)
  {
  }

  /** The four level-1 ability keys, in the order the services list them. */
  const Perception: string := "perception"
  const Exec: string := "exec"
  const Attention: string := "attention"
  const Memory: string := "memory"

  const AbilityKeys: set<string> := {Perception, Exec, Attention, Memory}
}
