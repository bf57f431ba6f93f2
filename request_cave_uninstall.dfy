/**
 * src/main/reactors/dialogs/request-cave-uninstall.ts: on an uninstall
 * request, fetch the cave and open a confirmation modal offering uninstall,
 * reinstall and cancel. The `FetchCave` call is foreign: its result is an
 * input, `None` standing for a rejected call or an absent cave (destructuring
 * `game` out of it throws), in both of which nothing is dispatched.
 */
module RequestCaveUninstall {
  import opened Wrappers
  import opened Actions

  datatype CaveGame = CaveGame(title: string)
  datatype Cave = Cave(game: Option<CaveGame>)

  /** The title shown in the prompt: the game's title, or "this" when the cave has no game. */
  function PromptTitle(cave: Cave): (title: string)
    ensures cave.game.Some? ==> title == cave.game.value.title
    ensures cave.game.None? ==> title == "this"
  {
    match cave.game
    case Some(game) => game.title
    case None => "this"
  }

  /** The modal opened for `caveId` (the parameters handed to the naked widget's factory). */
  function UninstallPrompt(caveId: string, cave: Cave): Modal {
    Modal(
      "",
      LocalizedString("prompt.uninstall.message", map["title" := PromptTitle(cave)]),
      [
        Button(LocalizedString("prompt.uninstall.uninstall", map[]), "modal-uninstall", QueueCaveUninstall(caveId), "uninstall"),
        Button(LocalizedString("prompt.uninstall.reinstall", map[]), "modal-reinstall", QueueCaveReinstall(caveId), "repeat"),
        Cancel
      ],
      None)
  }

  /**
   * The prompt's content: an empty title, the uninstall message with the
   * prompt title as its only variable, no widget parameters, and exactly three
   * buttons: uninstall, reinstall, then cancel, each of the first two with its
   * caption key and an action on the requested cave.
   */
  lemma UninstallPromptShape(caveId: string, cave: Cave)
    ensures var m := UninstallPrompt(caveId, cave);
      && m.title == ""
      && m.message.key == "prompt.uninstall.message"
      && m.message.variables.Keys == {"title"}
      && m.message.variables["title"] == PromptTitle(cave)
      && m.widgetParams == None
      && |m.buttons| == 3
      && m.buttons[0].Button? && m.buttons[0].id == "modal-uninstall" && m.buttons[0].icon == "uninstall"
      && m.buttons[0].caption == LocalizedString("prompt.uninstall.uninstall", map[])
      && m.buttons[0].action == QueueCaveUninstall(caveId)
      && m.buttons[1].Button? && m.buttons[1].id == "modal-reinstall" && m.buttons[1].icon == "repeat"
      && m.buttons[1].caption == LocalizedString("prompt.uninstall.reinstall", map[])
      && m.buttons[1].action == QueueCaveReinstall(caveId)
      && m.buttons[2] == Cancel
  {
  }

  /** Every button that carries an action carries one for the requested cave, and only cancel carries none. */
  lemma ButtonsTargetRequestedCave(caveId: string, cave: Cave)
    ensures var bs := UninstallPrompt(caveId, cave).buttons;
      forall i :: 0 <= i < |bs| ==>
        (bs[i].Button? ==> (bs[i].action.QueueCaveUninstall? || bs[i].action.QueueCaveReinstall?)
                           && bs[i].action.caveId == caveId)
        && (!bs[i].Button? ==> i == |bs| - 1)
  {
  }

  /**
   * The `requestCaveUninstall` reactor: with the fetched cave it dispatches
   * exactly one action, `openModal` with the prompt; it rejects, dispatching
   * nothing, when the cave could not be had.
   */
  method OnRequestCaveUninstall(store: Store, action: Action, fetched: Option<Cave>) returns (resolved: bool)
    requires action.RequestCaveUninstall?
    modifies store
    ensures resolved == fetched.Some?
    ensures resolved ==> store.dispatched == old(store.dispatched) + [OpenModal(UninstallPrompt(action.caveId, fetched.value))]
    ensures !resolved ==> store.dispatched == old(store.dispatched)
  {
    var caveId := action.caveId;
    if fetched.None? {
      return false;
    }
    var modal := UninstallPrompt(caveId, fetched.value);
    var _ := store.Dispatch(OpenModal(modal));
    resolved := true;
  }
}
