/** The vocabulary of reports: states, actions and file kinds (`state.go`). */
module Outcomes {

  datatype State = Absent | Identical | Drifted | Retired

  datatype Action = Noop | Create | Rewrite | Remove | Error

  datatype FileKind = SkillFile | MarkerFile | HelperFile | PluginFile | PluginAllowList

  /** `actionFor`. */
  function ActionFor(s: State): Action {
    match s
    case Absent => Create
    case Drifted => Rewrite
    case _ => Noop
  }
}
