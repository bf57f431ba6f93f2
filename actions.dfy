/**
 * The actions the core dispatches, as a tagged union, and the store that
 * receives them. Each constructor stands for one of the `actions.*` creators;
 * `Type()` is the action's type tag, which reactors are registered against.
 */
module Actions {
  import opened Wrappers

  /** A localised string reference: a string-table key and its variables. */
  datatype LocalizedString = LocalizedString(key: string, variables: map<string, string>)

  /** One entry of a modal's button list: a full button (its `label` is `caption`, `label` being a Dafny keyword), or the "cancel" shorthand. */
  datatype ModalButton =
    | Button(caption: LocalizedString, id: string, action: Action, icon: string)
    | Cancel

  /** The parameters of a modal dialog, as handed to the widget factory. */
  datatype Modal = Modal(
    title: string,
    message: LocalizedString,
    buttons: seq<ModalButton>,
    widgetParams: Option<map<string, string>>)

  datatype Action =
    | Tick
    | LoginSucceeded
    | Logout
    | UnlockTab(url: string)
    | SwitchPage(page: string)
    | SetDownloadsPaused(paused: bool)
    | Navigate(url: string, background: bool)
    | RequestCaveUninstall(caveId: string)
    | QueueCaveUninstall(caveId: string)
    | QueueCaveReinstall(caveId: string)
    | OpenModal(modal: Modal)
    | Other(tag: string)  // any other action, known only by its type tag
  {
    /** The action's type tag, the key of the reactor registry. */
    function Type(): string {
      match this
      case Tick => "tick"
      case LoginSucceeded => "loginSucceeded"
      case Logout => "logout"
      case UnlockTab(_) => "unlockTab"
      case SwitchPage(_) => "switchPage"
      case SetDownloadsPaused(_) => "setDownloadsPaused"
      case Navigate(_, _) => "navigate"
      case RequestCaveUninstall(_) => "requestCaveUninstall"
      case QueueCaveUninstall(_) => "queueCaveUninstall"
      case QueueCaveReinstall(_) => "queueCaveReinstall"
      case OpenModal(_) => "openModal"
      case Other(tag) => tag
    }
  }

  /**
   * The store as a reactor sees it: `dispatch` records the action. The
   * reducer's effect on the state is not modelled; `dispatched` is the log of
   * every action handed to `store.dispatch`, in order.
   */
  class Store {
    var dispatched: seq<Action>

    constructor()
      ensures dispatched == []
    {
      dispatched := [];
    }

    method Dispatch(action: Action) returns (a: Action)
      modifies this
      ensures dispatched == old(dispatched) + [action]
      ensures a == action
    {
      dispatched := dispatched + [action];
      a := action;
    }
  }
}
