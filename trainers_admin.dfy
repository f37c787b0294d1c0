/*
 * The administrator's trainer screens: the list with its delete dialog, and the add/edit
 * form with its name check, its image preview and its choice among four endpoints.
 */
module TrainersAdmin {
  import opened KotlinStd
  import opened Remote
  import opened TrainerSelection

  // ---------------------------------------------------------------------------
  // The list
  // ---------------------------------------------------------------------------

  /** `trainers.filter { it.id != id }`. */
  function RemoveTrainer(trainers: seq<Trainer>, id: int): (r: seq<Trainer>)
    ensures |r| <= |trainers|
    ensures forall t :: t in r <==> t in trainers && t.id != id
  {
    Filter(trainers, (t: Trainer) => t.id != id)
  }

  /** Every trainer with another id stays, as often as it was listed; none with that id stays. */
  lemma RemoveTrainerCounts(trainers: seq<Trainer>, id: int, t: Trainer)
    ensures multiset(RemoveTrainer(trainers, id))[t] == if t.id == id then 0 else multiset(trainers)[t]
  {
    FilterMultiset(trainers, (t: Trainer) => t.id != id, t);
  }

  /** Removal keeps the order of the rest: it works piecewise on any split of the list. */
  lemma RemoveTrainerSplits(front: seq<Trainer>, back: seq<Trainer>, id: int)
    ensures RemoveTrainer(front + back, id) == RemoveTrainer(front, id) + RemoveTrainer(back, id)
  {
    FilterAppend(front, back, (t: Trainer) => t.id != id);
  }

  class TrainersListScreen {
    var trainers: seq<Trainer>
    var isLoading: bool
    var showDeleteDialog: bool
    var selectedTrainer: Option<Trainer>

    constructor ()
      ensures trainers == [] && isLoading && !showDeleteDialog && selectedTrainer.None?
    {
      trainers := [];
      isLoading := true;
      showDeleteDialog := false;
      selectedTrainer := None;
    }

    /** The fetch at launch: only a 2xx answer replaces the list; every outcome ends the loading. */
    method OnTrainersFetched(outcome: Outcome<seq<Trainer>>)
      modifies this
      ensures outcome.Success? ==> trainers == outcome.body.GetOr([])
      ensures !outcome.Success? ==> trainers == old(trainers)
      ensures !isLoading && showDeleteDialog == old(showDeleteDialog) && selectedTrainer == old(selectedTrainer)
    {
      if outcome.Success? {
        trainers := outcome.body.GetOr([]);
      }
      isLoading := false;
    }

    /** The delete icon: selects the trainer and opens the dialog. */
    method ClickDelete(t: Trainer)
      modifies this
      ensures selectedTrainer == Some(t) && showDeleteDialog
      ensures trainers == old(trainers) && isLoading == old(isLoading)
    {
      selectedTrainer := Some(t);
      showDeleteDialog := true;
    }

    /**
     * The dialog's Delete button: with a selected trainer the delete request goes out, and a
     * 2xx answer removes every trainer with its id. The dialog always closes.
     */
    method ConfirmDelete(outcome: Outcome<()>) returns (deletedId: Option<int>)
      modifies this
      ensures deletedId == (if old(selectedTrainer).Some? then Some(old(selectedTrainer).value.id) else None)
      ensures deletedId.Some? && outcome.Success? ==> trainers == RemoveTrainer(old(trainers), deletedId.value)
      ensures deletedId.None? || !outcome.Success? ==> trainers == old(trainers)
      ensures !showDeleteDialog
      ensures selectedTrainer == old(selectedTrainer) && isLoading == old(isLoading)
    {
      deletedId := None;
      if selectedTrainer.Some? {
        var id := selectedTrainer.value.id;
        deletedId := Some(id);
        if outcome.Success? {
          trainers := RemoveTrainer(trainers, id);
        }
      }
      showDeleteDialog := false;
    }

    /** Cancel, or a tap outside the dialog: closes it and nothing else. */
    method DismissDelete()
      modifies this
      ensures !showDeleteDialog
      ensures trainers == old(trainers) && isLoading == old(isLoading) && selectedTrainer == old(selectedTrainer)
    {
      showDeleteDialog := false;
    }
  }

  // ---------------------------------------------------------------------------
  // The add/edit form
  // ---------------------------------------------------------------------------

  /** What the form shows as the trainer's picture. */
  datatype ImagePreview = LocalImage(uri: string) | ServerImage(url: string) | NoImage

  /** The picture just picked wins; then a non-empty server URL; then the placeholder. */
  function PreviewImage(selectedImageUri: Option<string>, currentServerImageUrl: Option<string>): (p: ImagePreview)
    ensures selectedImageUri.Some? ==> p == LocalImage(selectedImageUri.value)
    ensures selectedImageUri.None? && currentServerImageUrl.Some? && |currentServerImageUrl.value| > 0
      ==> p == ServerImage(currentServerImageUrl.value)
    ensures p == NoImage <==>
      selectedImageUri.None? && (currentServerImageUrl.None? || currentServerImageUrl.value == "")
  {
    if selectedImageUri.Some? then LocalImage(selectedImageUri.value)
    else if currentServerImageUrl.Some? && currentServerImageUrl.value != "" then ServerImage(currentServerImageUrl.value)
    else NoImage
  }

  /** The four save requests; the image parts themselves are built from a file and not modelled. */
  datatype TrainerRequest =
    | UpdateTrainerWithImage(id: int, name: string, imageUri: string)
    | CreateTrainerWithImage(name: string, imageUri: string)
    | UpdateTrainer(id: int, body: map<string, string>)
    | CreateTrainer(body: map<string, string>)

  /** The text-only body: exactly the name. */
  function TextOnlyBody(trainerName: string): (body: map<string, string>)
    ensures body.Keys == {"trainerName"} && body["trainerName"] == trainerName
  {
    map["trainerName" := trainerName]
  }

  /** The decision table: a picked image chooses multipart, edit mode with an id chooses update. */
  function RequestFor(selectedImageUri: Option<string>, isEditMode: bool, trainerId: Option<int>, trainerName: string)
    : (r: TrainerRequest)
    ensures (r.UpdateTrainerWithImage? || r.UpdateTrainer?) <==> isEditMode && trainerId.Some?
    ensures (r.UpdateTrainerWithImage? || r.CreateTrainerWithImage?) <==> selectedImageUri.Some?
    ensures r.UpdateTrainerWithImage? ==> r == UpdateTrainerWithImage(trainerId.value, trainerName, selectedImageUri.value)
    ensures r.CreateTrainerWithImage? ==> r == CreateTrainerWithImage(trainerName, selectedImageUri.value)
    ensures r.UpdateTrainer? ==> r == UpdateTrainer(trainerId.value, TextOnlyBody(trainerName))
    ensures r.CreateTrainer? ==> r == CreateTrainer(TextOnlyBody(trainerName))
  {
    match selectedImageUri
    case Some(uri) =>
      if isEditMode && trainerId.Some? then UpdateTrainerWithImage(trainerId.value, trainerName, uri)
      else CreateTrainerWithImage(trainerName, uri)
    case None =>
      if isEditMode && trainerId.Some? then UpdateTrainer(trainerId.value, TextOnlyBody(trainerName))
      else CreateTrainer(TextOnlyBody(trainerName))
  }

  /** `enabled = trainerName.isNotBlank() && !isLoading`. */
  predicate SaveEnabled(trainerName: string, isLoading: bool) {
    !IsBlank(trainerName) && !isLoading
  }

  /** The message left after a save that did not answer 2xx; None after a 2xx answer. */
  function SaveError<T>(outcome: Outcome<T>): (message: Option<string>)
    ensures message.None? <==> outcome.Success?
    ensures outcome.NonSuccess? ==> message == Some("Server error: " + IntToString(outcome.code))
    ensures outcome.Failure? ==> message == Some("Error: " + ShowNullable(outcome.error.message))
  {
    match outcome
    case Success(_) => None
    case NonSuccess(code, _) => Some("Server error: " + IntToString(code))
    case Failure(e) => Some("Error: " + ShowNullable(e.message))
  }

  class AddEditTrainerScreen {
    const isEditMode: bool
    const trainerId: Option<int>
    var trainerName: string
    var selectedImageUri: Option<string>
    var currentServerImageUrl: Option<string>
    var isLoading: bool
    var errorMessage: Option<string>

    constructor (isEditMode: bool, trainerId: Option<int>)
      ensures this.isEditMode == isEditMode && this.trainerId == trainerId
      ensures trainerName == "" && selectedImageUri.None? && currentServerImageUrl.None?
      ensures !isLoading && errorMessage.None?
    {
      this.isEditMode := isEditMode;
      this.trainerId := trainerId;
      trainerName := "";
      selectedImageUri := None;
      currentServerImageUrl := None;
      isLoading := false;
      errorMessage := None;
    }

    /** The picker's result: a picked image replaces the selection; a cancelled pick changes nothing. */
    method OnImagePicked(uri: Option<string>)
      modifies this
      ensures uri.Some? ==> selectedImageUri == uri
      ensures uri.None? ==> selectedImageUri == old(selectedImageUri)
      ensures trainerName == old(trainerName) && currentServerImageUrl == old(currentServerImageUrl)
      ensures isLoading == old(isLoading) && errorMessage == old(errorMessage)
    {
      if uri.Some? {
        selectedImageUri := uri;
      }
    }

    /**
     * The answer to the load request (sent in edit mode with an id): a 2xx answer with a
     * trainer sets the name and the server URL but never the selected image.
     */
    method OnTrainerLoaded(outcome: Outcome<Trainer>)
      requires isEditMode && trainerId.Some?
      modifies this
      ensures outcome.Success? && outcome.body.Some? ==>
        trainerName == outcome.body.value.trainerName
        && currentServerImageUrl == outcome.body.value.trainerImg
        && errorMessage == old(errorMessage)
      ensures !(outcome.Success? && outcome.body.Some?) ==>
        trainerName == old(trainerName) && currentServerImageUrl == old(currentServerImageUrl)
      ensures outcome == Success(None) ==> errorMessage == old(errorMessage)
      ensures outcome.NonSuccess? ==> errorMessage == Some("Failed to load trainer: " + IntToString(outcome.code))
      ensures outcome.Failure? ==> errorMessage == Some("Error loading trainer: " + ShowNullable(outcome.error.message))
      ensures selectedImageUri == old(selectedImageUri) && isLoading == old(isLoading)
    {
      match outcome
      case Success(Some(t)) =>
        trainerName := t.trainerName;
        currentServerImageUrl := t.trainerImg;
      case Success(None) =>
      case NonSuccess(code, _) =>
        errorMessage := Some("Failed to load trainer: " + IntToString(code));
      case Failure(e) =>
        errorMessage := Some("Error loading trainer: " + ShowNullable(e.message));
    }

    /**
     * Save: a blank name shows the error and sends nothing; otherwise the error is cleared,
     * the spinner shown, and the request chosen by the decision table goes out.
     */
    method ClickSave() returns (request: Option<TrainerRequest>)
      modifies this
      ensures IsBlank(trainerName) ==>
        request.None? && errorMessage == Some("Please enter a trainer name") && isLoading == old(isLoading)
      ensures !IsBlank(trainerName) ==>
        request == Some(RequestFor(selectedImageUri, isEditMode, trainerId, trainerName))
        && errorMessage.None? && isLoading
      ensures trainerName == old(trainerName) && selectedImageUri == old(selectedImageUri)
      ensures currentServerImageUrl == old(currentServerImageUrl)
    {
      if IsBlank(trainerName) {
        errorMessage := Some("Please enter a trainer name");
        return None;
      }
      isLoading := true;
      errorMessage := None;
      request := Some(RequestFor(selectedImageUri, isEditMode, trainerId, trainerName));
    }

    /** The end of a save: back to the list on a 2xx answer, else the error; the spinner always stops. */
    method OnSaveFinished(outcome: Outcome<()>) returns (goBack: bool)
      modifies this
      ensures goBack <==> outcome.Success?
      ensures outcome.Success? ==> errorMessage == old(errorMessage)
      ensures !outcome.Success? ==> errorMessage == SaveError(outcome)
      ensures !isLoading && trainerName == old(trainerName) && selectedImageUri == old(selectedImageUri)
    {
      if outcome.Success? {
        goBack := true;
      } else {
        goBack := false;
        errorMessage := SaveError(outcome);
      }
      isLoading := false;
    }
  }

  /**
   * Opening the form to edit a trainer and saving without picking a picture sends the
   * text-only update, whatever the trainer's server image: loading never selects an image.
   */
  method EditWithoutPickingImage(trainerId: int, loaded: Trainer) returns (request: Option<TrainerRequest>)
    requires !IsBlank(loaded.trainerName)
    ensures request == Some(UpdateTrainer(trainerId, TextOnlyBody(loaded.trainerName)))
  {
    var screen := new AddEditTrainerScreen(true, Some(trainerId));
    screen.OnTrainerLoaded(Success(Some(loaded)));
    request := screen.ClickSave();
  }
}
