/*
 * The administrator's module screen: the list, the add dialog with its typed name, and the
 * delete dialog that removes every entry equal to the selected module.
 */
module ModulesAdmin {
  import opened KotlinStd
  import opened Remote
  import opened ModuleSelection

  /** `modules.filter { it != module }`, with structural equality of modules. */
  function RemoveModule(modules: seq<Module>, m: Module): (r: seq<Module>)
    ensures |r| <= |modules|
    ensures forall x :: x in r <==> x in modules && x != m
  {
    Filter(modules, (x: Module) => x != m)
  }

  /** Every other module stays, as often as it was listed; the removed one is gone entirely. */
  lemma RemoveModuleCounts(modules: seq<Module>, m: Module, x: Module)
    ensures multiset(RemoveModule(modules, m))[x] == if x == m then 0 else multiset(modules)[x]
  {
    FilterMultiset(modules, (y: Module) => y != m, x);
  }

  /** Removal keeps the order of the rest: it works piecewise on any split of the list. */
  lemma RemoveModuleSplits(front: seq<Module>, back: seq<Module>, m: Module)
    ensures RemoveModule(front + back, m) == RemoveModule(front, m) + RemoveModule(back, m)
  {
    FilterAppend(front, back, (x: Module) => x != m);
  }

  /** Removing a module that is not listed leaves the list as it was. */
  lemma RemoveAbsentModule(modules: seq<Module>, m: Module)
    requires m !in modules
    ensures RemoveModule(modules, m) == modules
  {
    FilterAllKept(modules, (x: Module) => x != m);
  }

  /** The create body: exactly the typed name, under the key `module`. */
  function CreateBody(newModuleName: string): (body: map<string, string>)
    ensures body.Keys == {"module"} && body["module"] == newModuleName
  {
    map["module" := newModuleName]
  }

  class ModulesListScreen {
    var modules: seq<Module>
    var isLoading: bool
    var showDeleteDialog: bool
    var selectedModule: Option<Module>
    var showAddDialog: bool
    var newModuleName: string

    constructor ()
      ensures modules == [] && isLoading && !showDeleteDialog && selectedModule.None?
      ensures !showAddDialog && newModuleName == ""
    {
      modules := [];
      isLoading := true;
      showDeleteDialog := false;
      selectedModule := None;
      showAddDialog := false;
      newModuleName := "";
    }

    /** `fetchModules()`: only a 2xx answer replaces the list; every outcome ends the loading. */
    method OnModulesFetched(outcome: Outcome<seq<Module>>)
      modifies this
      ensures outcome.Success? ==> modules == outcome.body.GetOr([])
      ensures !outcome.Success? ==> modules == old(modules)
      ensures !isLoading
      ensures showDeleteDialog == old(showDeleteDialog) && selectedModule == old(selectedModule)
      ensures showAddDialog == old(showAddDialog) && newModuleName == old(newModuleName)
    {
      if outcome.Success? {
        modules := outcome.body.GetOr([]);
      }
      isLoading := false;
    }

    /** The add button opens the dialog, keeping whatever name was typed before. */
    method OpenAddDialog()
      modifies this
      ensures showAddDialog && newModuleName == old(newModuleName)
      ensures modules == old(modules) && isLoading == old(isLoading)
      ensures showDeleteDialog == old(showDeleteDialog) && selectedModule == old(selectedModule)
    {
      showAddDialog := true;
    }

    /** The dialog's Add button: a blank name does nothing; otherwise the create request goes out. */
    method ClickAdd() returns (request: Option<map<string, string>>)
      ensures IsBlank(newModuleName) ==> request.None?
      ensures !IsBlank(newModuleName) ==> request == Some(CreateBody(newModuleName))
    {
      if IsBlank(newModuleName) {
        return None;
      }
      request := Some(CreateBody(newModuleName));
    }

    /**
     * The answer to the create request: a 2xx answer closes the dialog, clears the typed
     * name and fetches the list again; anything else leaves the dialog open with its name.
     */
    method OnCreateFinished(outcome: Outcome<Module>) returns (refetch: bool)
      modifies this
      ensures refetch <==> outcome.Success?
      ensures outcome.Success? ==> !showAddDialog && newModuleName == ""
      ensures !outcome.Success? ==> showAddDialog == old(showAddDialog) && newModuleName == old(newModuleName)
      ensures modules == old(modules) && isLoading == old(isLoading)
      ensures showDeleteDialog == old(showDeleteDialog) && selectedModule == old(selectedModule)
    {
      refetch := outcome.Success?;
      if outcome.Success? {
        showAddDialog := false;
        newModuleName := "";
      }
    }

    /** The dialog's Cancel button closes it and clears the typed name. */
    method CancelAdd()
      modifies this
      ensures !showAddDialog && newModuleName == ""
      ensures modules == old(modules) && isLoading == old(isLoading)
      ensures showDeleteDialog == old(showDeleteDialog) && selectedModule == old(selectedModule)
    {
      showAddDialog := false;
      newModuleName := "";
    }

    /** A tap outside the add dialog closes it but keeps the typed name. */
    method DismissAdd()
      modifies this
      ensures !showAddDialog && newModuleName == old(newModuleName)
      ensures modules == old(modules) && isLoading == old(isLoading)
      ensures showDeleteDialog == old(showDeleteDialog) && selectedModule == old(selectedModule)
    {
      showAddDialog := false;
    }

    /** The delete icon: selects the module and opens the delete dialog. */
    method ClickDelete(m: Module)
      modifies this
      ensures selectedModule == Some(m) && showDeleteDialog
      ensures modules == old(modules) && isLoading == old(isLoading)
      ensures showAddDialog == old(showAddDialog) && newModuleName == old(newModuleName)
    {
      selectedModule := Some(m);
      showDeleteDialog := true;
    }

    /**
     * The delete dialog's Delete button: with a selected module the delete request goes out
     * for its id, and a 2xx answer removes every entry equal to it. The dialog always closes.
     */
    method ConfirmDelete(outcome: Outcome<()>) returns (deletedId: Option<int>)
      modifies this
      ensures deletedId == (if old(selectedModule).Some? then Some(old(selectedModule).value.id) else None)
      ensures old(selectedModule).Some? && outcome.Success? ==>
        modules == RemoveModule(old(modules), old(selectedModule).value)
      ensures old(selectedModule).None? || !outcome.Success? ==> modules == old(modules)
      ensures !showDeleteDialog
      ensures selectedModule == old(selectedModule) && isLoading == old(isLoading)
      ensures showAddDialog == old(showAddDialog) && newModuleName == old(newModuleName)
    {
      deletedId := None;
      if selectedModule.Some? {
        var m := selectedModule.value;
        deletedId := Some(m.id);
        if outcome.Success? {
          modules := RemoveModule(modules, m);
        }
      }
      showDeleteDialog := false;
    }

    /** Cancel, or a tap outside the delete dialog: closes it and nothing else. */
    method DismissDelete()
      modifies this
      ensures !showDeleteDialog
      ensures modules == old(modules) && isLoading == old(isLoading) && selectedModule == old(selectedModule)
      ensures showAddDialog == old(showAddDialog) && newModuleName == old(newModuleName)
    {
      showDeleteDialog := false;
    }
  }
}
