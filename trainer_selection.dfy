/*
 * Trainer selection: the username handed over at start, the trainer list fetched once,
 * and the tap on a trainer that records its name in the session and opens module selection.
 */
module TrainerSelection {
  import opened KotlinStd
  import opened Remote
  import opened Session

  /** A trainer as the server lists it. */
  datatype Trainer = Trainer(id: int, trainerName: string, trainerImg: Option<string>)

  /** `getStringExtra("USERNAME") ?: ""` stored as the session's username. */
  method OnCreate(session: FeedbackSession, usernameExtra: Option<string>)
    modifies session
    ensures session.State() == old(session.State()).(currentUsername := Some(usernameExtra.GetOr("")))
  {
    session.currentUsername := Some(usernameExtra.GetOr(""));
  }

  /** What the screen shows: a spinner, the empty notice, or the trainers to tap. */
  datatype View = Loading | NoTrainers | TrainerList(trainers: seq<Trainer>)

  function ViewOf(trainers: seq<Trainer>, isLoading: bool): (v: View)
    ensures v.Loading? <==> isLoading
    ensures v.NoTrainers? <==> !isLoading && |trainers| == 0
    ensures v.TrainerList? ==> |v.trainers| > 0 && v.trainers == trainers
  {
    if isLoading then Loading
    else if |trainers| == 0 then NoTrainers
    else TrainerList(trainers)
  }

  /** The extras of the module-selection intent. */
  datatype SelectionExtras = SelectionExtras(username: string, trainerName: string)

  class TrainerSelectionScreen {
    var trainers: seq<Trainer>
    var isLoading: bool
    const session: FeedbackSession

    constructor (session: FeedbackSession)
      ensures trainers == [] && isLoading && this.session == session
    {
      trainers := [];
      isLoading := true;
      this.session := session;
    }

    /**
     * The list fetch: a 2xx answer replaces the list (an absent body with the empty list);
     * any other answer and any exception keep it. Every outcome ends the loading.
     */
    method OnTrainersFetched(outcome: Outcome<seq<Trainer>>)
      modifies this
      ensures outcome.Success? ==> trainers == outcome.body.GetOr([])
      ensures !outcome.Success? ==> trainers == old(trainers)
      ensures !isLoading
    {
      if outcome.Success? {
        trainers := outcome.body.GetOr([]);
      }
      isLoading := false;
    }

    /**
     * A tap on a listed trainer: its name becomes the session's selected trainer, nothing
     * else in the session changes, and module selection opens with the username and the name.
     */
    method SelectTrainer(trainer: Trainer) returns (extras: SelectionExtras)
      requires ViewOf(trainers, isLoading).TrainerList? && trainer in trainers
      modifies session
      ensures session.State() == old(session.State()).(selectedTrainerName := Some(trainer.trainerName))
      ensures extras.username == old(session.currentUsername).GetOr("")
      ensures extras.trainerName == trainer.trainerName
    {
      var username := session.currentUsername.GetOr("");
      session.selectedTrainerName := Some(trainer.trainerName);
      extras := SelectionExtras(username, trainer.trainerName);
    }
  }
}
