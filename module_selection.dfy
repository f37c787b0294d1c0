/*
 * Module selection: the header naming the selected trainer, the module list fetched once,
 * and the tap on a module that records its name in the session and opens the questions.
 */
module ModuleSelection {
  import opened KotlinStd
  import opened Remote
  import opened Session

  /** A module as the server lists it; `module` is its name. */
  datatype Module = Module(id: int, name: string)

  /** The header: the selected trainer, or "Unknown" when none is selected. */
  function Header(s: SessionState): (header: string)
    ensures s.selectedTrainerName.None? ==> header == "Select Module for Unknown"
    ensures s.selectedTrainerName.Some? ==> header == "Select Module for " + s.selectedTrainerName.value
  {
    "Select Module for " + s.selectedTrainerName.GetOr("Unknown")
  }

  /** The extras of the question-screen intent; the first two may be null. */
  datatype QuestionExtras = QuestionExtras(username: Option<string>, trainerName: Option<string>, moduleName: string)

  class ModuleSelectionScreen {
    var modules: seq<Module>
    const session: FeedbackSession

    constructor (session: FeedbackSession)
      ensures modules == [] && this.session == session
    {
      modules := [];
      this.session := session;
    }

    /** The list fetch: only a 2xx answer replaces the list (an absent body with the empty list). */
    method OnModulesFetched(outcome: Outcome<seq<Module>>)
      modifies this
      ensures outcome.Success? ==> modules == outcome.body.GetOr([])
      ensures !outcome.Success? ==> modules == old(modules)
    {
      if outcome.Success? {
        modules := outcome.body.GetOr([]);
      }
    }

    /**
     * A tap on a listed module: its name becomes the session's selected module, nothing else
     * in the session changes, and the question screen opens with the session's username and
     * trainer and the module's name.
     */
    method SelectModule(m: Module) returns (extras: QuestionExtras)
      requires m in modules
      modifies session
      ensures session.State() == old(session.State()).(selectedModuleName := Some(m.name))
      ensures extras == QuestionExtras(old(session.currentUsername), old(session.selectedTrainerName), m.name)
    {
      session.selectedModuleName := Some(m.name);
      extras := QuestionExtras(session.currentUsername, session.selectedTrainerName, m.name);
    }
  }
}
