/** The popup (src/App.tsx): which view is shown, and the colour request's
    state — the colours received, whether a request is in flight, and the
    error to show. Each handler is an atomic transition of that state; the
    Chrome transport is replaced by the response it delivers. */
module App {
  import opened Wrappers
  import opened ColorExtractorView

  datatype View = Menu | ColorExtractor

  datatype PopupState = PopupState(
    view: View,
    colors: seq<string>,
    isLoadingColors: bool,
    colorError: Option<string>)

  /** The state the popup opens in. */
  const Initial := PopupState(Menu, [], false, None)

  /** The reply delivered to the popup's callback: an object that may carry
      an `error` key and may carry a `colors` key (`{}` carries neither). */
  datatype ContentResponse = ContentResponse(error: Option<string>, colors: Option<seq<string>>)

  const ConnectFailed := "Could not connect to the page."
  const NoColorsFound := "No colors found on this page."

  /** `handleActivateColorExtractor`, up to the request it sends: the previous
      result is cleared and the palette view opens with the loader. */
  function ActivateColorExtractor(s: PopupState): (r: PopupState)
    ensures r.view == ColorExtractor
    ensures r.isLoadingColors && r.colorError.None? && r.colors == []
  {
    PopupState(ColorExtractor, [], true, None)
  }

  /** The response callback of `handleActivateColorExtractor`. */
  function ReceiveResponse(s: PopupState, response: ContentResponse): (r: PopupState)
    ensures !r.isLoadingColors && r.view == s.view
    // an `error` key wins over `colors`; an empty message falls back
    ensures response.error.Some? ==>
      && r.colors == s.colors
      && r.colorError.Some? && r.colorError.value != ""
      && (response.error.value != "" ==> r.colorError.value == response.error.value)
      && (response.error.value == "" ==> r.colorError.value == "Could not connect to the page.")
    // a non-empty colour list is stored as received
    ensures response.error.None? && response.colors.Some? && |response.colors.value| > 0 ==>
      r.colors == response.colors.value && r.colorError == s.colorError
    // `{colors: []}` and `{}` report that nothing was found
    ensures response.error.None? && (response.colors.None? || response.colors.value == []) ==>
      r.colors == s.colors && r.colorError == Some("No colors found on this page.")
  {
    if response.error.Some? then
      var message := if response.error.value != "" then response.error.value else ConnectFailed;
      s.(colorError := Some(message), isLoadingColors := false)
    else if response.colors.Some? && |response.colors.value| > 0 then
      s.(colors := response.colors.value, isLoadingColors := false)
    else
      s.(colorError := Some(NoColorsFound), isLoadingColors := false)
  }

  /** The palette view's back button. */
  function Back(s: PopupState): (r: PopupState)
    ensures r.view == Menu
    ensures r.colors == s.colors && r.colorError == s.colorError && r.isLoadingColors == s.isLoadingColors
  {
    s.(view := Menu)
  }

  datatype Event =
    | Activate                       // the menu's colour extractor button
    | Respond(response: ContentResponse)
    | GoBack                         // the palette view's back button
    | ActivateTextEditor             // the menu's text editor button

  function Step(s: PopupState, e: Event): (r: PopupState) {
    match e
    case Activate => ActivateColorExtractor(s)
    case Respond(response) => ReceiveResponse(s, response)
    case GoBack => Back(s)
    // `handleActivateTextEditor` sends its request and closes the popup;
    // it sets no state
    case ActivateTextEditor => s
  }

  /** The state after a sequence of events. */
  function Run(s: PopupState, events: seq<Event>): (r: PopupState)
    decreases |events|
  {
    if |events| == 0 then s else Run(Step(s, events[0]), events[1..])
  }

  /** Activating the text editor changes none of the popup's state. */
  lemma TextEditorLeavesStateUnchanged(s: PopupState)
    ensures Step(s, ActivateTextEditor).view == s.view
    ensures Step(s, ActivateTextEditor).colors == s.colors
    ensures Step(s, ActivateTextEditor).isLoadingColors == s.isLoadingColors
    ensures Step(s, ActivateTextEditor).colorError == s.colorError
  {
  }

  /** What holds of every state the popup can reach:
      an error shown is never empty; while loading, no colour and no error is
      held; and once the palette view is done loading, it has colours or an
      error to show. */
  predicate Consistent(s: PopupState) {
    && (s.colorError.Some? ==> s.colorError.value != "")
    && (s.isLoadingColors ==> s.colors == [] && s.colorError.None?)
    && (s.view == ColorExtractor && !s.isLoadingColors ==> s.colors != [] || s.colorError.Some?)
  }

  lemma StepPreservesConsistent(s: PopupState, e: Event)
    requires Consistent(s)
    ensures Consistent(Step(s, e))
  {
  }

  lemma {:induction false} RunPreservesConsistent(s: PopupState, events: seq<Event>)
    requires Consistent(s)
    ensures Consistent(Run(s, events))
    decreases |events|
  {
    if |events| > 0 {
      StepPreservesConsistent(s, events[0]);
      RunPreservesConsistent(Step(s, events[0]), events[1..]);
    }
  }

  /** Every state reachable from the opening state, by any interleaving of
      clicks and responses, is consistent. */
  lemma ReachableIsConsistent(events: seq<Event>)
    ensures Consistent(Run(Initial, events))
  {
    RunPreservesConsistent(Initial, events);
  }

  /** After Activate and its response, exactly one holds: colours received
      and no error, or no colours and a non-empty error. */
  lemma ActivateThenResponse(s: PopupState, response: ContentResponse)
    ensures
      var t := ReceiveResponse(ActivateColorExtractor(s), response);
      && !t.isLoadingColors
      && t.view == ColorExtractor
      && ((t.colors != [] && t.colorError.None?) <==> !(t.colors == [] && t.colorError.Some? && t.colorError.value != ""))
  {
  }

  /** The limit of ActivateThenResponse: when Back abandons a request and a
      new one is started, both responses are applied in arrival order, so an
      earlier error stays stored beside later colours and is shown instead. */
  lemma StaleErrorMasksColors()
    ensures
      var t := Run(Initial, [Activate, GoBack, Activate,
                             Respond(ContentResponse(Some("e"), None)),
                             Respond(ContentResponse(None, Some(["x"])))]);
      && t.colors == ["x"] && t.colorError == Some("e") && !t.isLoadingColors
      && RenderApp(t) == ExtractorScreen(Screen(BackLabel, Heading, ErrorShown("e")))
  {
  }

  /** What the popup shows. */
  datatype AppScreen = MenuScreen | ExtractorScreen(screen: Screen)

  /** The `view === "menu"` choice in `App`. */
  function RenderApp(s: PopupState): (r: AppScreen)
    ensures r.MenuScreen? <==> s.view == Menu
    ensures r.ExtractorScreen? ==> r.screen == Render(s.colors, s.isLoadingColors, s.colorError)
  {
    match s.view
    case Menu => MenuScreen
    case ColorExtractor => ExtractorScreen(Render(s.colors, s.isLoadingColors, s.colorError))
  }

  /** Once the response has arrived, the palette view shows either a
      non-empty colour grid or a non-empty message, never the loader. */
  lemma ResponseShowsGridOrMessage(s: PopupState, response: ContentResponse)
    ensures
      var r := RenderApp(ReceiveResponse(ActivateColorExtractor(s), response));
      && r.ExtractorScreen?
      && ((r.screen.body.Grid? && r.screen.body.colors != [])
          || (r.screen.body.ErrorShown? && r.screen.body.message != ""))
  {
  }

  /** In any reachable state, the palette view shows the loader, a
      non-empty colour grid, or a non-empty message: never an empty grid. */
  lemma ReachableScreen(events: seq<Event>)
    ensures
      var r := RenderApp(Run(Initial, events));
      r.ExtractorScreen? ==>
        || r.screen.body.Loading?
        || (r.screen.body.Grid? && r.screen.body.colors != [])
        || (r.screen.body.ErrorShown? && r.screen.body.message != "")
  {
    ReachableIsConsistent(events);
  }
}
