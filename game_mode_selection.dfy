/** Choosing the game mode at start-up (GameModeSelector.SelectGameMode)
    and remembering the choice made in the selection dialog
    (GameModeSelectorViewModel.SaveChoice).

    The registries of supported and installed game modes are maps from
    mode id to factory; the dialog is not modelled, its outcome is an
    input; the error message box is modelled by the text it would show. */
module GameModeSelection {
  import opened Common

  /** The id of the placeholder entry the dialog lists for "Rescan
      Installed Games". */
  const RescanInstalledGames: string := "__rescaninstalledgames"

  datatype GameModeDescriptor = GameModeDescriptor(modeId: string, name: string)

  datatype GameModeFactory = GameModeFactory(gameModeDescriptor: GameModeDescriptor)

  /** A registry of game-mode factories, by mode id. */
  datatype GameModeRegistry = GameModeRegistry(factories: map<string, GameModeFactory>)

  /** `IsRegistered`; a null id is registered in no registry. */
  predicate IsRegistered(registry: GameModeRegistry, id: Option<string>) {
    id.Some? && id.value in registry.factories
  }

  /** `RegisteredGameModes`: the descriptors of the registered factories. */
  function RegisteredGameModes(registry: GameModeRegistry): set<GameModeDescriptor> {
    set id | id in registry.factories :: registry.factories[id].gameModeDescriptor
  }

  /** The part of the settings store the selection reads and writes. */
  class Settings {
    var RememberGameMode: bool
    var RememberedGameMode: Option<string>
    const ModManagerName: string
    /** How often `Save` was called. */
    var saveCalls: nat

    constructor (modManagerName: string, rememberGameMode: bool, rememberedGameMode: Option<string>)
      ensures ModManagerName == modManagerName && RememberGameMode == rememberGameMode
      ensures RememberedGameMode == rememberedGameMode && saveCalls == 0
    {
      ModManagerName := modManagerName;
      RememberGameMode := rememberGameMode;
      RememberedGameMode := rememberedGameMode;
      saveCalls := 0;
    }
  }

  /** The view model behind the selection dialog. `SelectedGameMode` and
      `RescanRequested` are what the selector reads back once the dialog
      is closed. */
  class GameModeSelectorViewModel {
    const settings: Settings
    const GameModes: set<GameModeDescriptor>
    /** Whether the "remember" check box is checked. */
    var RememberSelectedGameMode: bool
    var SelectedGameModeId: Option<string>
    var SelectedGameMode: Option<GameModeDescriptor>
    var RescanRequested: bool

    constructor (gameModes: set<GameModeDescriptor>, settings: Settings)
      ensures GameModes == gameModes && this.settings == settings
      ensures !RememberSelectedGameMode && SelectedGameModeId.None? && SelectedGameMode.None? && !RescanRequested
    {
      GameModes := gameModes;
      this.settings := settings;
      RememberSelectedGameMode := false;
      SelectedGameModeId := None;
      SelectedGameMode := None;
      RescanRequested := false;
    }

    /** SaveChoice: the rescan placeholder is forgotten and nothing is
        saved; any other id is written to the settings together with the
        "remember" flag, and the settings are saved once. The id must not be
        null, as `Equals` is called on it. */
    method SaveChoice()
      requires SelectedGameModeId.Some?
      modifies this`SelectedGameModeId, settings`RememberGameMode, settings`RememberedGameMode, settings`saveCalls
      ensures old(SelectedGameModeId.value) == RescanInstalledGames ==>
                SelectedGameModeId.None? && unchanged(settings)
      ensures old(SelectedGameModeId.value) != RescanInstalledGames ==>
                && SelectedGameModeId == old(SelectedGameModeId)
                && settings.RememberGameMode == RememberSelectedGameMode
                && settings.RememberedGameMode == SelectedGameModeId
                && settings.saveCalls == old(settings.saveCalls) + 1
    {
      if SelectedGameModeId.value == RescanInstalledGames {
        SelectedGameModeId := None;
      } else {
        settings.RememberGameMode := RememberSelectedGameMode;
        settings.RememberedGameMode := SelectedGameModeId;
        settings.saveCalls := settings.saveCalls + 1;
      }
    }
  }

  /** How the dialog was closed: cancelled, or accepted with or without a
      rescan request, with the descriptor selected in the list, if any, and
      with the "remember" check box checked or not. */
  datatype DialogOutcome =
    | Cancelled
    | Accepted(rescanRequested: bool, selected: Option<GameModeDescriptor>, remember: bool)

  /** Whether accepting the dialog writes the choice to the settings: a
      descriptor other than the rescan placeholder is selected. */
  predicate SavesChoice(dialog: DialogOutcome) {
    dialog.Accepted? && dialog.selected.Some? && dialog.selected.value.modeId != RescanInstalledGames
  }

  /** What SelectGameMode returns: a factory, or null together with the
      error text it showed, if it showed one. */
  datatype Selection = GameMode(factory: GameModeFactory) | NoGameMode(error: Option<string>)

  // ---------------------------------------------------------------------
  // The selection rule, as a value
  // ---------------------------------------------------------------------

  /** The id to start from: the remembered one, if the settings say to. */
  function StartingId(rememberGameMode: bool, rememberedGameMode: Option<string>): Option<string> {
    if rememberGameMode then rememberedGameMode else None
  }

  /** A non-empty requested id replaces the starting one. */
  function RequestedOrStarting(requested: Option<string>, starting: Option<string>): Option<string> {
    if !IsNullOrEmpty(requested) then requested else starting
  }

  predicate ShowsDialog(changeDefaultGameMode: bool, id: Option<string>) {
    changeDefaultGameMode || IsNullOrEmpty(id)
  }

  /** The error shown for an id no registry knows (`{0}` of a null id is
      empty). */
  function UnrecognizedMessage(id: Option<string>): string {
    "Unrecognized Game Mode: " + id.GetOr("")
  }

  /** The error shown for a supported game that is not installed. */
  function NotSetUpMessage(modManagerName: string, gameName: string): string {
    modManagerName + " is not set up to work with " + gameName + NewLine
      + "If " + gameName + " is installed, rescan for installed games from the Change Game toolbar item." + NewLine
  }

  /** The final check of an id against the installed and the supported game
      modes. */
  function Validate(id: Option<string>, supported: GameModeRegistry, installed: GameModeRegistry,
                    modManagerName: string): Selection
  {
    if IsRegistered(installed, id) then
      GameMode(installed.factories[id.value])
    else if !IsRegistered(supported, id) then
      NoGameMode(Some(UnrecognizedMessage(id)))
    else
      NoGameMode(Some(NotSetUpMessage(modManagerName, supported.factories[id.value].gameModeDescriptor.name)))
  }

  /** The id an accepted dialog leaves: the selected descriptor's. */
  function SelectedId(selected: Option<GameModeDescriptor>): Option<string> {
    if selected.Some? then Some(selected.value.modeId) else None
  }

  function SelectionModel(rememberGameMode: bool, rememberedGameMode: Option<string>,
                          requested: Option<string>, changeDefaultGameMode: bool, dialog: DialogOutcome,
                          supported: GameModeRegistry, installed: GameModeRegistry, modManagerName: string): Selection
  {
    var id := RequestedOrStarting(requested, StartingId(rememberGameMode, rememberedGameMode));
    if !ShowsDialog(changeDefaultGameMode, id) then
      Validate(id, supported, installed, modManagerName)
    else
      match dialog
      case Cancelled => NoGameMode(None)
      case Accepted(rescan, selected, _) =>
        if rescan then NoGameMode(None) else Validate(SelectedId(selected), supported, installed, modManagerName)
  }

  // ---------------------------------------------------------------------
  // The selector
  // ---------------------------------------------------------------------

  /** Stands in for the modal dialog. Accepting it stores the selected
      descriptor's id in the view model and saves the choice (the dialog's
      Accept handler); then the view model holds the selected descriptor and
      the rescan request. */
  method ShowDialog(viewModel: GameModeSelectorViewModel, dialog: DialogOutcome) returns (accepted: bool)
    modifies viewModel`SelectedGameMode, viewModel`RescanRequested, viewModel`RememberSelectedGameMode,
             viewModel`SelectedGameModeId
    modifies viewModel.settings`RememberGameMode, viewModel.settings`RememberedGameMode, viewModel.settings`saveCalls
    ensures accepted == dialog.Accepted?
    ensures accepted ==> viewModel.SelectedGameMode == dialog.selected && viewModel.RescanRequested == dialog.rescanRequested
    ensures accepted ==>
              viewModel.SelectedGameModeId == (if SavesChoice(dialog) then Some(dialog.selected.value.modeId) else None)
    ensures SavesChoice(dialog) ==>
              && viewModel.settings.RememberGameMode == dialog.remember
              && viewModel.settings.RememberedGameMode == Some(dialog.selected.value.modeId)
              && viewModel.settings.saveCalls == old(viewModel.settings.saveCalls) + 1
    ensures !SavesChoice(dialog) ==> unchanged(viewModel.settings)
    ensures !accepted ==> unchanged(viewModel)
  {
    accepted := dialog.Accepted?;
    if accepted {
      viewModel.RememberSelectedGameMode := dialog.remember;
      viewModel.SelectedGameModeId := SelectedId(dialog.selected);
      if viewModel.SelectedGameModeId.Some? {
        viewModel.SaveChoice();
      }
      viewModel.SelectedGameMode := dialog.selected;
      viewModel.RescanRequested := dialog.rescanRequested;
    }
  }

  class GameModeSelector {
    const SupportedGameModes: GameModeRegistry
    const InstalledGameModes: GameModeRegistry
    const settings: Settings
    var viewModel: GameModeSelectorViewModel?

    constructor (supportedGameModes: GameModeRegistry, installedGameModes: GameModeRegistry, settings: Settings)
      ensures SupportedGameModes == supportedGameModes && InstalledGameModes == installedGameModes
      ensures this.settings == settings && viewModel == null
      ensures !RescanRequested()
    {
      SupportedGameModes := supportedGameModes;
      InstalledGameModes := installedGameModes;
      this.settings := settings;
      viewModel := null;
    }

    /** Whether the dialog asked for a rescan of installed games: never
        before a dialog view model exists. */
    predicate RescanRequested()
      reads this, viewModel
      ensures RescanRequested() ==> viewModel != null
    {
      viewModel != null && viewModel.RescanRequested
    }

    /** SelectGameMode. */
    method SelectGameMode(requested: Option<string>, changeDefaultGameMode: bool, dialog: DialogOutcome)
      returns (r: Selection)
      modifies this`viewModel, settings`RememberGameMode, settings`RememberedGameMode, settings`saveCalls
      ensures r == SelectionModel(old(settings.RememberGameMode), old(settings.RememberedGameMode), requested,
                                  changeDefaultGameMode, dialog, SupportedGameModes, InstalledGameModes,
                                  settings.ModManagerName)
      ensures var id := RequestedOrStarting(requested, StartingId(old(settings.RememberGameMode), old(settings.RememberedGameMode)));
              if ShowsDialog(changeDefaultGameMode, id) && SavesChoice(dialog) then
                && settings.RememberGameMode == dialog.remember
                && settings.RememberedGameMode == Some(dialog.selected.value.modeId)
                && settings.saveCalls == old(settings.saveCalls) + 1
              else
                unchanged(settings)
      ensures var id := RequestedOrStarting(requested, StartingId(old(settings.RememberGameMode), old(settings.RememberedGameMode)));
              if ShowsDialog(changeDefaultGameMode, id) then
                && viewModel != null && fresh(viewModel)
                && viewModel.GameModes == RegisteredGameModes(InstalledGameModes) && viewModel.settings == settings
                && RescanRequested() == (dialog.Accepted? && dialog.rescanRequested)
              else
                viewModel == old(viewModel)
    {
      var selectedGameModeId := if settings.RememberGameMode then settings.RememberedGameMode else None;
      if !IsNullOrEmpty(requested) {
        selectedGameModeId := requested;
      }
      if changeDefaultGameMode || IsNullOrEmpty(selectedGameModeId) {
        var gameModeInfos := RegisteredGameModes(InstalledGameModes);
        var vm := new GameModeSelectorViewModel(gameModeInfos, settings);
        viewModel := vm;
        var accepted := ShowDialog(vm, dialog);
        if !accepted {
          return NoGameMode(None);
        }
        if RescanRequested() {
          return NoGameMode(None);
        }
        selectedGameModeId := if vm.SelectedGameMode.Some? then Some(vm.SelectedGameMode.value.modeId) else None;
      }
      r := CheckGameMode(selectedGameModeId);
    }

    /** The closing checks of SelectGameMode: the id must name an installed
        game mode; otherwise the error shown says whether the game is
        unknown or only not installed. */
    method CheckGameMode(id: Option<string>) returns (r: Selection)
      ensures r == Validate(id, SupportedGameModes, InstalledGameModes, settings.ModManagerName)
    {
      if !IsRegistered(InstalledGameModes, id) {
        var error;
        if !IsRegistered(SupportedGameModes, id) {
          error := UnrecognizedMessage(id);
        } else {
          var name := SupportedGameModes.factories[id.value].gameModeDescriptor.name;
          error := NotSetUpMessage(settings.ModManagerName, name);
        }
        return NoGameMode(Some(error));
      }
      return GameMode(InstalledGameModes.factories[id.value]);
    }
  }

  // ---------------------------------------------------------------------
  // Properties
  // ---------------------------------------------------------------------

  /** The dialog is shown exactly when a change of the default was asked
      for, or when neither a non-empty requested id nor a remembered,
      non-empty id is at hand. */
  lemma DialogShownIff(rememberGameMode: bool, rememberedGameMode: Option<string>,
                       requested: Option<string>, changeDefaultGameMode: bool)
    ensures ShowsDialog(changeDefaultGameMode, RequestedOrStarting(requested, StartingId(rememberGameMode, rememberedGameMode)))
        <==> (changeDefaultGameMode
              || (IsNullOrEmpty(requested) && (!rememberGameMode || IsNullOrEmpty(rememberedGameMode))))
  {
  }

  /** A non-empty requested id beats the remembered one: without a change of
      the default, no dialog is shown and the result is the check of that
      id, whatever was remembered. */
  lemma RequestedIdWins(rememberGameMode: bool, rememberedGameMode: Option<string>, requested: Option<string>,
                        dialog: DialogOutcome, supported: GameModeRegistry, installed: GameModeRegistry, name: string)
    requires !IsNullOrEmpty(requested)
    ensures SelectionModel(rememberGameMode, rememberedGameMode, requested, false, dialog, supported, installed, name)
         == Validate(requested, supported, installed, name)
  {
  }

  /** Without a request, a remembered non-empty id is used when the settings
      say to remember it, and no dialog is shown. */
  lemma RememberedIdUsed(rememberedGameMode: string, requested: Option<string>,
                         dialog: DialogOutcome, supported: GameModeRegistry, installed: GameModeRegistry, name: string)
    requires IsNullOrEmpty(requested) && rememberedGameMode != ""
    ensures SelectionModel(true, Some(rememberedGameMode), requested, false, dialog, supported, installed, name)
         == Validate(Some(rememberedGameMode), supported, installed, name)
  {
  }

  /** A remembered id is ignored when the settings say not to remember: with
      no request, the dialog decides. */
  lemma ForgottenIdAsksTheUser(rememberedGameMode: Option<string>, requested: Option<string>, changeDefault: bool,
                               dialog: DialogOutcome, supported: GameModeRegistry, installed: GameModeRegistry, name: string)
    requires IsNullOrEmpty(requested)
    ensures SelectionModel(false, rememberedGameMode, requested, changeDefault, dialog, supported, installed, name)
         == SelectionModel(false, None, None, true, dialog, supported, installed, name)
  {
  }

  /** When the dialog is shown, cancelling it or asking for a rescan selects
      nothing and shows no error; accepting it checks the selected
      descriptor's id, or a null id when nothing was selected. */
  lemma DialogOutcomes(rememberGameMode: bool, rememberedGameMode: Option<string>, requested: Option<string>,
                       changeDefault: bool, dialog: DialogOutcome,
                       supported: GameModeRegistry, installed: GameModeRegistry, name: string)
    requires ShowsDialog(changeDefault, RequestedOrStarting(requested, StartingId(rememberGameMode, rememberedGameMode)))
    ensures var r := SelectionModel(rememberGameMode, rememberedGameMode, requested, changeDefault, dialog,
                                    supported, installed, name);
            && (dialog.Cancelled? ==> r == NoGameMode(None))
            && (dialog.Accepted? && dialog.rescanRequested ==> r == NoGameMode(None))
            && (dialog.Accepted? && !dialog.rescanRequested && dialog.selected.Some? ==>
                  r == Validate(Some(dialog.selected.value.modeId), supported, installed, name))
            && (dialog.Accepted? && !dialog.rescanRequested && dialog.selected.None? ==>
                  r == NoGameMode(Some("Unrecognized Game Mode: ")))
  {
    assert UnrecognizedMessage(None) == "Unrecognized Game Mode: " + "";
    assert "Unrecognized Game Mode: " + "" == "Unrecognized Game Mode: ";
  }

  /** The check of an id: an installed id gives exactly the installed
      factory; an unknown id gives the "Unrecognized" text naming it; a
      supported, uninstalled id gives the two-line "not set up" text naming
      the manager and the game. */
  lemma ValidationOutcomes(id: string, supported: GameModeRegistry, installed: GameModeRegistry, name: string)
    ensures id in installed.factories ==>
              Validate(Some(id), supported, installed, name) == GameMode(installed.factories[id])
    ensures id !in installed.factories && id !in supported.factories ==>
              Validate(Some(id), supported, installed, name) == NoGameMode(Some("Unrecognized Game Mode: " + id))
    ensures id !in installed.factories && id in supported.factories ==>
              var game := supported.factories[id].gameModeDescriptor.name;
              Validate(Some(id), supported, installed, name)
              == NoGameMode(Some(name + " is not set up to work with " + game + NewLine
                                 + "If " + game + " is installed, rescan for installed games from the Change Game toolbar item." + NewLine))
  {
  }

  /** A game mode is returned only if it is an installed one, and no error
      is shown without a failed check: a null result without an error comes
      from the dialog only. */
  lemma ResultIsInstalledOrExplained(rememberGameMode: bool, rememberedGameMode: Option<string>,
                                     requested: Option<string>, changeDefault: bool, dialog: DialogOutcome,
                                     supported: GameModeRegistry, installed: GameModeRegistry, name: string)
    ensures var r := SelectionModel(rememberGameMode, rememberedGameMode, requested, changeDefault, dialog,
                                    supported, installed, name);
            var id := RequestedOrStarting(requested, StartingId(rememberGameMode, rememberedGameMode));
            && (r.GameMode? ==> r.factory.gameModeDescriptor in RegisteredGameModes(installed))
            && (r == NoGameMode(None) ==>
                  ShowsDialog(changeDefault, id) && (dialog.Cancelled? || dialog.rescanRequested))
  {
    var r := SelectionModel(rememberGameMode, rememberedGameMode, requested, changeDefault, dialog,
                            supported, installed, name);
    if r.GameMode? {
      var k :| k in installed.factories && installed.factories[k] == r.factory;
      assert installed.factories[k].gameModeDescriptor in RegisteredGameModes(installed);
    }
  }

  /** The settings SaveChoice writes for a chosen id (`RememberGameMode`
      set to the view model's "remember" flag, `RememberedGameMode` to the
      id) decide the next start-up without a request or a change of
      default: the dialog is skipped exactly when "remember" was checked. */
  lemma SavedChoiceSkipsDialog(rememberSelected: bool, selectedId: string)
    requires selectedId != "" && selectedId != RescanInstalledGames
    ensures !ShowsDialog(false, RequestedOrStarting(None, StartingId(rememberSelected, Some(selectedId))))
        <==> rememberSelected
  {
  }
}
