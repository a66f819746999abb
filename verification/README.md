# Page colour palette extractor — Dafny model

This project models the logic of a Chrome extension that extracts a colour palette from the page in the active tab. The model has three parts.

- **The content script** (`src/content.ts`, module `Content` in `content.dfy`). `collectPageColors` walks every element in document order. For each element it reads eight colour property names from the computed style. It drops `""`, `rgba(0, 0, 0, 0)` and `transparent`, and collects the remaining values in a JavaScript `Set`. `Array.from` returns them in first-insertion order. The message listener answers `GET_PAGE_COLORS` with `{colors: ...}`.
  - The document is a `seq<ComputedStyle>`, where `ComputedStyle = string -> string` is an element's opaque `getPropertyValue`.
  - The `Set` with insertion order is `OrderedSets.OrderedSet` (`ordered_sets.dfy`).
  - `CollectPageColors` is the loop algorithm. It is proved equal to the reference definition `PageColors`. Lemmas state the palette's properties: no duplicates, only visible values, soundness, completeness, first-occurrence order, the empty case, and that only the eight names are read.
- **The popup** (`src/App.tsx`, module `App` in `app.dfy`). The state is `view`, `colors`, `isLoadingColors` and `colorError`. The events are Activate, the page's response, Back, and activating the text editor.
  - The response is a record of two optional keys, `error` and `colors`. This lets the model express that an `error` key wins over `colors`, and that `{}` has neither key.
  - An invariant, `Consistent`, is proved for every state reachable by any interleaving of these events.
- **The palette view** (`src/views/ColorExtractorView.tsx`, module `ColorExtractorView`). It chooses the loader, the error message or the colour grid.
  - `App.RenderApp` chooses between the menu and the palette view.
  - `EndToEnd` (`end_to_end.dfy`) connects all three parts. After a scan, the user sees either the page's non-empty palette as a grid or "No colors found on this page.", and never both.

All inputs from the browser are parameters: the elements and their computed styles, and the response delivered to the popup.

Facts about the code that the model keeps:
- `collectPageColors` reads the camelCase names `backgroundColor`, `borderColor`, and so on, through `getPropertyValue`.
- `Array.from` returns the palette in first-insertion order.
- The listener answers no request other than `GET_PAGE_COLORS`. It still returns `true` for every request.

## Model

| member | source | states |
|---|---|---|
| Content.CollectPageColors | src/content.ts:1-34 | The pass over all elements returns exactly the reference palette `PageColors`. The result has no duplicates and holds exactly the visible values that were read. |
| Content.AddElementColors | src/content.ts:23-29 | The pass over one element's eight names leaves the set equal to offering that element's values, in list order, after all earlier ones. |
| Content.CollectedIsFirstOccurrence | src/content.ts:23-33 | Offering values one by one to the set gives a duplicate-free list. It holds exactly the visible offered values, ordered by each value's first offer. |
| Content.PageColorsNoDuplicates | src/content.ts:26-33 | The palette never lists a colour twice. |
| Content.PageColorsVisible | src/content.ts:23-29 | No palette entry is `""`, `rgba(0, 0, 0, 0)` or `transparent`. |
| Content.PageColorsSound | src/content.ts:12-28 | Every palette entry is the value of one of the eight listed names on some element. |
| Content.PageColorsComplete | src/content.ts:7-29 | Every visible value of one of the eight names, on any element, is in the palette. |
| Content.PageColorsFirstOccurrenceOrder | src/content.ts:5-33 | Palette entries are ordered by the position where each is first read. Positions follow elements in document order, then names in list order. |
| Content.ValuesLayout | src/content.ts:7-24 | Name `k` of element `i` is read at position `8*i + k` of the reading order. |
| Content.ValuesMembership | src/content.ts:7-24 | A string is read exactly when it is the value of one of the eight names on some element. |
| Content.CollectedIgnoresInvisible | src/content.ts:26 | Offering only `""`, `rgba(0, 0, 0, 0)` or `transparent` values leaves the collected set unchanged. |
| Content.PageColorsEmpty | src/content.ts:1-33 | A page with no elements, or with no visible value among the eight names, yields `[]`. |
| Content.PageColorsReadOnlyColorProperties | src/content.ts:12-24 | Two pages that agree on the eight names of every element yield the same palette, whatever other properties hold. |
| Content.OnMessage | src/content.ts:37-46 | Only a `GET_PAGE_COLORS` request gets a reply, and that reply is `{colors: PageColors(elements)}`. The listener always returns `true`. |
| OrderedSets.Add | src/content.ts:27 | `Set.add` keeps the set duplicate-free and adds exactly the new value. A present value keeps its place; a new value goes last. |
| App.ActivateColorExtractor | src/App.tsx:21-25 | Activate opens the palette view with loading on, no error and no colours. |
| App.ReceiveResponse | src/App.tsx:34-43 | An `error` key wins. It sets a non-empty error: the given message, or "Could not connect to the page." when the message is empty. A non-empty `colors` list is stored unchanged, with the error untouched. `{colors: []}` and `{}` set "No colors found on this page.". Loading always ends. |
| App.Back | src/App.tsx:80 | Back returns to the menu and keeps the colours, the error and the loading flag. |
| App.TextEditorLeavesStateUnchanged | src/App.tsx:48-66 | Activating the text editor changes no field of the popup state. |
| App.RunPreservesConsistent | src/App.tsx:15-46 | Any sequence of events keeps three facts. A stored error is never `""`. While loading, no colours and no error are held. In the palette view once loading is over, there are colours or an error. |
| App.ReachableIsConsistent | src/App.tsx:15-19 | Every state reachable from the opening state is consistent. |
| App.ActivateThenResponse | src/App.tsx:21-42 | After Activate and a response, exactly one holds: colours and no error, or no colours and a non-empty error. |
| App.StaleErrorMasksColors | src/App.tsx:35-42 | The events Activate, Back, Activate, a response `{error: "e"}` and a response `{colors: ["x"]}` end with colours `["x"]` and error `"e"` both stored, and the screen shows the message "e" rather than the colours. |
| App.RenderApp | src/App.tsx:68-83 | The menu is shown exactly in the menu view. Otherwise the palette view gets the state's colours, loading flag and error. |
| App.ResponseShowsGridOrMessage | src/App.tsx:34-42 | Once the response to Activate arrives, the screen shows a non-empty grid or a non-empty message, never the loader. |
| App.ReachableScreen | src/App.tsx:68-82 | In every reachable state, the palette view shows the loader, a non-empty grid or a non-empty message. It never shows an empty grid. |
| ColorExtractorView.Render | src/views/ColorExtractorView.tsx:19-34 | The back button and heading are always present. The loader shows exactly when loading. The error shows exactly when not loading and the error is truthy, and it shows that text. Otherwise the grid shows, with the colours unchanged. |
| EndToEnd.AsResponse | src/utils/chromeUtils.ts:23 | The listener's `{colors}` reply reaches the popup as a response with no `error` key and the same colours. |
| EndToEnd.ScanShowsPaletteOrNothingFound | src/App.tsx:33-42 | After a scan, a non-empty page palette is shown as exactly that grid. An empty palette shows "No colors found on this page.". |
| EndToEnd.NoVisibleColorShowsNothingFound | src/App.tsx:39-40 | A page with no elements, or with no visible colour, shows "No colors found on this page.". |
| EndToEnd.SingleColorPalette | src/content.ts:12-33 | A page with one element whose only visible colour is `rgb(1,2,3)` yields `["rgb(1,2,3)"]`. |
| EndToEnd.SingleColorPage | src/App.tsx:37-38 | For that page, the popup shows exactly the grid `["rgb(1,2,3)"]`. |

## Left out

- DOM access: `document.querySelectorAll('*')` and `getComputedStyle` become the parameter `seq<ComputedStyle>`. Whether the camelCase names resolve to values in a browser is CSSOM behaviour and is not modelled. A name that yields `""` is dropped like any other empty value.
- Chrome transport: `chrome.tabs.query`, the early return when there is no active tab, `chrome.scripting.executeScript` and its injection-failure reply, `chrome.tabs.sendMessage`, `chrome.runtime.lastError`, `alert` and `window.close`. The popup receives the delivered response as an input.
- A reply of `undefined` from a failed `sendMessage` is not modelled. Only object responses are.
- Content.OnMessage: the request's `type` is modelled as a string. Each injection of the script registers another listener. All such listeners compute the same palette, so only one is modelled.
- React scheduling: each handler's state updates are one atomic transition. `useState` batching and render timing are not modelled.
- src/views/CSSInspector.tsx: a view that flips a flag around fire-and-forget messages. The page side does not answer those messages.
- Page-side text editing and CSS inspection are not modelled: src/content.ts answers only `GET_PAGE_COLORS`; it has no handler for `ENABLE_TEXT_EDIT_MODE`, `START_CSS_INSPECTION` or `STOP_CSS_INSPECTION`. It also samples no images: the palette comes from computed styles alone.
- App.ActivateThenResponse: its "exactly one" holds for one Activate followed by its own response, not for every reachable state. When a request is abandoned with Back and a new one started, both responses are applied in arrival order; an earlier error then stays stored beside later colours and is shown instead of them (App.StaleErrorMasksColors). Every reachable state still satisfies `App.Consistent` and shows exactly one of loader, grid or message.
- Presentational components (menu, button, header, loader, error message, colour grid) are markup only. The model keeps just which of them is chosen and with what data.
