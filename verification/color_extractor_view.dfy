/** The colour palette screen (src/views/ColorExtractorView.tsx): a back
    button, a heading, and exactly one of a loader, an error message or the
    colour grid, chosen from the popup's loading flag and error. */
module ColorExtractorView {
  import opened Wrappers

  /** The part of the screen below the heading. */
  datatype Body =
    | Loading(text: string)         // <Loader text=...>
    | ErrorShown(message: string)   // <ErrorMessage message=...>
    | Grid(colors: seq<string>)     // <ColorGrid colors=...>

  /** What the view renders. */
  datatype Screen = Screen(backLabel: string, heading: string, body: Body)

  const BackLabel := "← Back to Menu"
  const Heading := "Page Color Palette"
  const LoaderText := "Scanning page..."

  /** JavaScript truthiness of `string | null`: `null` and `""` are falsy. */
  predicate Truthy(error: Option<string>) {
    error.Some? && error.value != ""
  }

  /** `ColorExtractorView({colors, isLoading, error})`. */
  function Render(colors: seq<string>, isLoading: bool, error: Option<string>): (r: Screen)
    ensures r.backLabel == "← Back to Menu" && r.heading == "Page Color Palette"
    ensures r.body.Loading? <==> isLoading
    ensures r.body.ErrorShown? <==> !isLoading && error.Some? && error.value != ""
    ensures r.body.Grid? <==> !isLoading && (error.None? || error.value == "")
    ensures r.body.Loading? ==> r.body.text == "Scanning page..."
    ensures r.body.ErrorShown? ==> r.body.message == error.value
    ensures r.body.Grid? ==> r.body.colors == colors
  {
    var body :=
      if isLoading then Loading(LoaderText)
      else if Truthy(error) then ErrorShown(error.value)
      else Grid(colors);
    Screen(BackLabel, Heading, body)
  }
}
