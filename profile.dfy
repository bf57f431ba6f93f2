/**
 * src/main/reactors/profile.ts: what the session reactors dispatch on login
 * and on logout. `me.developer` and whether a download is active are read
 * from the store's state; here they are inputs.
 */
module Profile {
  import opened Wrappers
  import opened Actions

  const DashboardUrl: string := "itch://dashboard"
  const DownloadsUrl: string := "itch://downloads"

  /** The actions the `loginSucceeded` reactor dispatches, in order. */
  function LoginActions(developer: bool, hasActiveDownload: bool): seq<Action> {
    (if developer then [UnlockTab(DashboardUrl)] else [])
    + [SwitchPage("hub"), SetDownloadsPaused(false)]
    + (if hasActiveDownload then [Navigate(DownloadsUrl, true)] else [])
  }

  /** The actions the `logout` reactor dispatches, in order. */
  function LogoutActions(): seq<Action> {
    [SwitchPage("gate"), SetDownloadsPaused(true)]
  }

  /** The `loginSucceeded` reactor. */
  method OnLoginSucceeded(store: Store, developer: bool, hasActiveDownload: bool)
    modifies store
    ensures store.dispatched == old(store.dispatched) + LoginActions(developer, hasActiveDownload)
  {
    if developer {
      var _ := store.Dispatch(UnlockTab(DashboardUrl));
    }
    var _ := store.Dispatch(SwitchPage("hub"));
    // resume downloads
    var _ := store.Dispatch(SetDownloadsPaused(false));
    // and open the downloads tab if one is pending
    if hasActiveDownload {
      var _ := store.Dispatch(Navigate(DownloadsUrl, true));
    }
  }

  /** The `logout` reactor. */
  method OnLogout(store: Store)
    modifies store
    ensures store.dispatched == old(store.dispatched) + LogoutActions()
  {
    var _ := store.Dispatch(SwitchPage("gate"));
    var _ := store.Dispatch(SetDownloadsPaused(true));
  }

  /**
   * The login sequence: two to four actions; `unlockTab` first exactly for a
   * developer; then `switchPage("hub")` and, right after it, resuming
   * downloads; `navigate` to the downloads tab last exactly when a download is
   * active.
   */
  lemma LoginActionsShape(developer: bool, hasActiveDownload: bool)
    ensures var s, k := LoginActions(developer, hasActiveDownload), if developer then 1 else 0;
      && 2 <= |s| <= 4
      && |s| == 2 + k + (if hasActiveDownload then 1 else 0)
      && (s[0] == UnlockTab(DashboardUrl) <==> developer)
      && s[k] == SwitchPage("hub")
      && s[k + 1] == SetDownloadsPaused(false)
      && (s[|s| - 1] == Navigate(DownloadsUrl, true) <==> hasActiveDownload)
      && (forall i :: 0 <= i < |s| && s[i].UnlockTab? ==> i == 0 && developer)
      && (forall i :: 0 <= i < |s| && s[i].Navigate? ==> i == |s| - 1 && hasActiveDownload)
  {
  }

  /** The flag of the last `setDownloadsPaused` in a log, if any. */
  function LastPaused(log: seq<Action>): Option<bool>
    decreases |log|
  {
    if log == [] then None
    else if log[|log| - 1].SetDownloadsPaused? then Some(log[|log| - 1].paused)
    else LastPaused(log[..|log| - 1])
  }

  /** A later `setDownloadsPaused` hides every earlier one. */
  lemma {:induction false} LastPausedOfSuffix(log: seq<Action>, later: seq<Action>)
    requires LastPaused(later).Some?
    ensures LastPaused(log + later) == LastPaused(later)
    decreases |later|
  {
    var whole := log + later;
    assert whole[|whole| - 1] == later[|later| - 1];
    if !later[|later| - 1].SetDownloadsPaused? {
      assert whole[..|whole| - 1] == log + later[..|later| - 1];
      LastPausedOfSuffix(log, later[..|later| - 1]);
    }
  }

  /** Whatever came before, login leaves downloads unpaused and logout leaves them paused. */
  lemma LoginResumesLogoutPauses(log: seq<Action>, developer: bool, hasActiveDownload: bool)
    ensures LastPaused(log + LoginActions(developer, hasActiveDownload)) == Some(false)
    ensures LastPaused(log + LogoutActions()) == Some(true)
  {
    var login := LoginActions(developer, hasActiveDownload);
    if hasActiveDownload {
      assert login[..|login| - 1] == (if developer then [UnlockTab(DashboardUrl)] else []) + [SwitchPage("hub"), SetDownloadsPaused(false)];
    }
    assert LastPaused(login) == Some(false);
    LastPausedOfSuffix(log, login);
    assert LastPaused(LogoutActions()) == Some(true);
    LastPausedOfSuffix(log, LogoutActions());
  }
}
