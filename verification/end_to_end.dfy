/** The colour request from click to screen: the popup activates the
    extractor, the page's listener answers `GET_PAGE_COLORS` with its palette,
    and the popup renders the answer. The transport is assumed to deliver
    the listener's reply unchanged. */
module EndToEnd {
  import opened Wrappers
  import opened Content
  import opened App
  import opened ColorExtractorView

  /** The listener's `{colors: ...}` as the popup's callback receives it. */
  function AsResponse(reply: ColorsReply): (r: ContentResponse)
    ensures r.error.None? && r.colors == Some(reply.colors)
  {
    ContentResponse(None, Some(reply.colors))
  }

  /** The screen after Activate and the page's reply. */
  function ScanAndShow(s: PopupState, elements: seq<ComputedStyle>): (r: AppScreen) {
    var response := AsResponse(OnMessage(Request(GetPageColors), elements).reply.value);
    RenderApp(ReceiveResponse(ActivateColorExtractor(s), response))
  }

  /** The user sees the page's palette as a grid when it is non-empty, and
      otherwise the text "No colors found on this page." in the error slot —
      never the loader, an empty grid or an injection error. */
  lemma ScanShowsPaletteOrNothingFound(s: PopupState, elements: seq<ComputedStyle>)
    ensures PageColors(elements) != [] ==>
      ScanAndShow(s, elements) == ExtractorScreen(Screen(BackLabel, Heading, Grid(PageColors(elements))))
    ensures PageColors(elements) == [] ==>
      ScanAndShow(s, elements) == ExtractorScreen(Screen(BackLabel, Heading, ErrorShown("No colors found on this page.")))
  {
  }

  /** A page with no elements, or with no visible colour, shows "No colors
      found on this page.". */
  lemma NoVisibleColorShowsNothingFound(s: PopupState, elements: seq<ComputedStyle>)
    requires forall i, k :: 0 <= i < |elements| && 0 <= k < |ColorProperties| ==> !Visible(elements[i](ColorProperties[k]))
    ensures ScanAndShow(s, elements) == ExtractorScreen(Screen(BackLabel, Heading, ErrorShown("No colors found on this page.")))
  {
    PageColorsEmpty(elements);
    ScanShowsPaletteOrNothingFound(s, elements);
  }

  /** A page with one element whose colour is `rgb(1,2,3)` and nothing else
      visible has exactly that colour as its palette. */
  lemma SingleColorPalette(style: ComputedStyle)
    requires style("color") == "rgb(1,2,3)"
    requires forall k :: 1 <= k < |ColorProperties| ==> !Visible(style(ColorProperties[k]))
    ensures PageColors([style]) == ["rgb(1,2,3)"]
  {
    ValuesOfOne(style);
    var vs := Reads(style);
    InvisibleAfterFirst(style);
    assert ColorProperties[0] == "color";
    var first := vs[0];
    assert first == "rgb(1,2,3)";
    assert vs == [first] + vs[1..];
    CollectedIgnoresInvisible([first], vs[1..]);
    CollectedOne(first);
  }

  lemma CollectedOne(color: string)
    requires Visible(color)
    ensures Collected([color]).items == [color]
  {
    assert [color][..0] == [];
  }

  lemma ValuesOfOne(style: ComputedStyle)
    ensures Values([style]) == Reads(style)
  {
    assert [style][..0] == [];
  }

  lemma InvisibleAfterFirst(style: ComputedStyle)
    requires forall k :: 1 <= k < |ColorProperties| ==> !Visible(style(ColorProperties[k]))
    ensures forall x :: x in Reads(style)[1..] ==> !Visible(x)
  {
    var rest := Reads(style)[1..];
    forall x | x in rest
      ensures !Visible(x)
    {
      var j :| 0 <= j < |rest| && rest[j] == x;
      assert x == style(ColorProperties[j + 1]);
    }
  }

  /** ... and the popup shows exactly that colour. */
  lemma SingleColorPage(s: PopupState, style: ComputedStyle)
    requires style("color") == "rgb(1,2,3)"
    requires forall k :: 1 <= k < |ColorProperties| ==> !Visible(style(ColorProperties[k]))
    ensures ScanAndShow(s, [style]) == ExtractorScreen(Screen(BackLabel, Heading, Grid(["rgb(1,2,3)"])))
  {
    SingleColorPalette(style);
    ScanShowsPaletteOrNothingFound(s, [style]);
  }
}
