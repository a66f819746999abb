/** The content script injected into the inspected page (src/content.ts): the
    colour collection pass `collectPageColors` and the message listener that
    answers `GET_PAGE_COLORS`.

    The live document is abstracted to the sequence of its elements in
    document order (`document.querySelectorAll('*')`), each given by the
    `getPropertyValue` lookup of its computed style. */
module Content {
  import opened Wrappers
  import opened OrderedSets

  /** `getComputedStyle(element).getPropertyValue`: property name to value,
      `""` when the property yields nothing. */
  type ComputedStyle = string -> string

  /** The property names read from every element, in the order they are read. */
  const ColorProperties: seq<string> := [
    "color",
    "backgroundColor",
    "borderColor",
    "borderTopColor",
    "borderRightColor",
    "borderBottomColor",
    "borderLeftColor",
    "outlineColor"
  ]

  /** The fully transparent value that the pass skips. */
  const TransparentBlack := "rgba(0, 0, 0, 0)"

  /** A value that the pass keeps: non-empty, not `rgba(0, 0, 0, 0)`, not
      `transparent`. */
  predicate Visible(color: string) {
    color != "" && color != TransparentBlack && color != "transparent"
  }

  /** The eight values read from one element, in list order. */
  function Reads(style: ComputedStyle): (r: seq<string>)
    ensures |r| == |ColorProperties|
    ensures forall k :: 0 <= k < |ColorProperties| ==> r[k] == style(ColorProperties[k])
  {
    seq(|ColorProperties|, k requires 0 <= k < |ColorProperties| => style(ColorProperties[k]))
  }

  /** Every value the pass reads, in the order it reads them: elements in
      document order, and within an element the names in list order. */
  function Values(elements: seq<ComputedStyle>): (r: seq<string>)
    ensures |r| == |ColorProperties| * |elements|
  {
    if |elements| == 0 then []
    else Values(elements[..|elements| - 1]) + Reads(elements[|elements| - 1])
  }

  /** One read value offered to the set: kept only when visible. */
  function Keep(acc: OrderedSet<string>, color: string): (r: OrderedSet<string>) {
    if Visible(color) then Add(acc, color) else acc
  }

  /** The set after offering `values` to it one by one. */
  function Collected(values: seq<string>): (r: OrderedSet<string>) {
    if |values| == 0 then Empty()
    else Keep(Collected(values[..|values| - 1]), values[|values| - 1])
  }

  /** The palette `collectPageColors` returns for a page. */
  function PageColors(elements: seq<ComputedStyle>): (r: seq<string>) {
    ToArray(Collected(Values(elements)))
  }

  /** The value read for name `k` of element `i` is the value at position
      `8 * i + k` of the reading order. */
  lemma {:induction false} ValuesLayout(elements: seq<ComputedStyle>, i: int, k: int)
    requires 0 <= i < |elements| && 0 <= k < |ColorProperties|
    ensures Values(elements)[|ColorProperties| * i + k] == elements[i](ColorProperties[k])
  {
    var n := |elements| - 1;
    var init := elements[..n];
    assert Values(elements) == Values(init) + Reads(elements[n]);
    if i < n {
      ValuesLayout(init, i, k);
      assert |ColorProperties| * i + k < |Values(init)|;
    } else {
      assert |ColorProperties| * i + k == |Values(init)| + k;
    }
  }

  /** Every position of the reading order holds the value of one of the
      eight names on some element. */
  lemma {:induction false} ValuesSource(elements: seq<ComputedStyle>, n: int) returns (i: int, k: int)
    requires 0 <= n < |Values(elements)|
    ensures 0 <= i < |elements| && 0 <= k < |ColorProperties|
    ensures Values(elements)[n] == elements[i](ColorProperties[k])
  {
    var last := |elements| - 1;
    var init := elements[..last];
    assert Values(elements) == Values(init) + Reads(elements[last]);
    if n < |Values(init)| {
      i, k := ValuesSource(init, n);
    } else {
      i, k := last, n - |Values(init)|;
    }
  }

  /** A string is read by the pass exactly when it is the value of one of the
      eight names on some element. */
  lemma ValuesMembership(elements: seq<ComputedStyle>, c: string)
    ensures c in Values(elements) <==>
      exists i, k :: 0 <= i < |elements| && 0 <= k < |ColorProperties| && elements[i](ColorProperties[k]) == c
  {
    if c in Values(elements) {
      ReadValueHasSource(elements, c);
    } else {
      forall i, k | 0 <= i < |elements| && 0 <= k < |ColorProperties|
        ensures elements[i](ColorProperties[k]) != c
      {
        SourceValueIsRead(elements, i, k);
      }
    }
  }

  lemma ReadValueHasSource(elements: seq<ComputedStyle>, c: string)
    requires c in Values(elements)
    ensures exists i, k :: 0 <= i < |elements| && 0 <= k < |ColorProperties| && elements[i](ColorProperties[k]) == c
  {
    var vs := Values(elements);
    var n :| 0 <= n < |vs| && vs[n] == c;
    var i, k := ValuesSource(elements, n);
    assert elements[i](ColorProperties[k]) == c;
  }

  lemma SourceValueIsRead(elements: seq<ComputedStyle>, i: int, k: int)
    requires 0 <= i < |elements| && 0 <= k < |ColorProperties|
    ensures elements[i](ColorProperties[k]) in Values(elements)
  {
    ValuesLayout(elements, i, k);
    assert |ColorProperties| * i + k < |ColorProperties| * |elements|;
  }

  /** The collected set holds no duplicate, holds exactly the visible values
      read, and lists them in the order of their first reading. */
  lemma {:induction false} CollectedIsFirstOccurrence(values: seq<string>)
    ensures NoDuplicates(Collected(values).items)
    ensures forall c :: c in Collected(values).items <==> c in values && Visible(c)
    ensures forall a, b :: 0 <= a < b < |Collected(values).items| ==>
      IndexOf(values, Collected(values).items[a]) < IndexOf(values, Collected(values).items[b])
  {
    if |values| > 0 {
      var n := |values| - 1;
      var init, v := values[..n], values[n];
      assert values == init + [v];
      CollectedIsFirstOccurrence(init);
      var p := Collected(init).items;
      var q := Collected(values).items;
      forall c | c in p
        ensures IndexOf(values, c) == IndexOf(init, c)
      {
        IndexOfAppend(init, [v], c);
      }
      if Visible(v) && v !in p {
        assert v !in init;
        IndexOfNew(init, v);
        assert q == p + [v];
        forall a, b | 0 <= a < b < |q|
          ensures IndexOf(values, q[a]) < IndexOf(values, q[b])
        {
          if b < |p| {
            assert q[a] == p[a] && q[b] == p[b];
          } else {
            assert q[a] == p[a] && q[b] == v;
          }
        }
      }
    }
  }

  /** Offering values that are all invisible leaves the set as it was. */
  lemma {:induction false} CollectedIgnoresInvisible(values: seq<string>, rest: seq<string>)
    requires forall x :: x in rest ==> !Visible(x)
    ensures Collected(values + rest) == Collected(values)
  {
    if |rest| == 0 {
      assert values + rest == values;
    } else {
      var n := |rest| - 1;
      assert rest[n] in rest;
      assert (values + rest)[..|values| + n] == values + rest[..n];
      assert forall x :: x in rest[..n] ==> x in rest;
      CollectedIgnoresInvisible(values, rest[..n]);
    }
  }

  /** The palette never lists a colour twice. */
  lemma PageColorsNoDuplicates(elements: seq<ComputedStyle>)
    ensures NoDuplicates(PageColors(elements))
  {
    CollectedIsFirstOccurrence(Values(elements));
  }

  /** No palette entry is `""`, `rgba(0, 0, 0, 0)` or `transparent`. */
  lemma PageColorsVisible(elements: seq<ComputedStyle>)
    ensures forall c :: c in PageColors(elements) ==>
      c != "" && c != "rgba(0, 0, 0, 0)" && c != "transparent"
  {
    CollectedIsFirstOccurrence(Values(elements));
  }

  /** Every palette entry is the value of one of the eight names on some element. */
  lemma PageColorsSound(elements: seq<ComputedStyle>, c: string)
    requires c in PageColors(elements)
    ensures exists i, k :: 0 <= i < |elements| && 0 <= k < |ColorProperties| && elements[i](ColorProperties[k]) == c
  {
    CollectedIsFirstOccurrence(Values(elements));
    ValuesMembership(elements, c);
  }

  /** Every visible value of one of the eight names, on any element, is in the palette. */
  lemma PageColorsComplete(elements: seq<ComputedStyle>, i: int, k: int)
    requires 0 <= i < |elements| && 0 <= k < |ColorProperties|
    requires Visible(elements[i](ColorProperties[k]))
    ensures elements[i](ColorProperties[k]) in PageColors(elements)
  {
    CollectedIsFirstOccurrence(Values(elements));
    ValuesMembership(elements, elements[i](ColorProperties[k]));
  }

  /** The palette is ordered by first reading: for entries `a` before `b`, the
      first position at which `a` is read (`8 * element + name`, see
      ValuesLayout) comes before that of `b`. */
  lemma PageColorsFirstOccurrenceOrder(elements: seq<ComputedStyle>, a: int, b: int)
    requires 0 <= a < b < |PageColors(elements)|
    ensures PageColors(elements)[a] in Values(elements) && PageColors(elements)[b] in Values(elements)
    ensures IndexOf(Values(elements), PageColors(elements)[a]) < IndexOf(Values(elements), PageColors(elements)[b])
  {
    CollectedIsFirstOccurrence(Values(elements));
  }

  /** A page without elements, or whose every read value is filtered out,
      yields the empty palette. */
  lemma PageColorsEmpty(elements: seq<ComputedStyle>)
    requires forall i, k :: 0 <= i < |elements| && 0 <= k < |ColorProperties| ==> !Visible(elements[i](ColorProperties[k]))
    ensures PageColors(elements) == []
  {
    var p := PageColors(elements);
    CollectedIsFirstOccurrence(Values(elements));
    if |p| > 0 {
      ValuesMembership(elements, p[0]);
    }
  }

  /** Only the eight listed names are consulted: pages that agree on them
      yield the same palette, whatever any other property holds. */
  lemma {:induction false} PageColorsReadOnlyColorProperties(a: seq<ComputedStyle>, b: seq<ComputedStyle>)
    requires |a| == |b|
    requires forall i, k :: 0 <= i < |a| && 0 <= k < |ColorProperties| ==> a[i](ColorProperties[k]) == b[i](ColorProperties[k])
    ensures PageColors(a) == PageColors(b)
  {
    ValuesAgree(a, b);
  }

  lemma {:induction false} ValuesAgree(a: seq<ComputedStyle>, b: seq<ComputedStyle>)
    requires |a| == |b|
    requires forall i, k :: 0 <= i < |a| && 0 <= k < |ColorProperties| ==> a[i](ColorProperties[k]) == b[i](ColorProperties[k])
    ensures Values(a) == Values(b)
  {
    if |a| > 0 {
      var n := |a| - 1;
      ValuesAgree(a[..n], b[..n]);
      assert Reads(a[n]) == Reads(b[n]);
    }
  }

  lemma CollectedSnoc(values: seq<string>, color: string)
    ensures Collected(values + [color]) == Keep(Collected(values), color)
  {
    assert (values + [color])[..|values|] == values;
  }

  lemma ValuesSnoc(elements: seq<ComputedStyle>, i: int)
    requires 0 <= i < |elements|
    ensures Values(elements[..i + 1]) == Values(elements[..i]) + Reads(elements[i])
  {
    assert elements[..i + 1][..i] == elements[..i];
  }

  lemma ReadsSnoc(before: seq<string>, style: ComputedStyle, k: int)
    requires 0 <= k < |ColorProperties|
    ensures (before + Reads(style)[..k]) + [style(ColorProperties[k])] == before + Reads(style)[..k + 1]
  {
    assert Reads(style)[..k + 1] == Reads(style)[..k] + [style(ColorProperties[k])];
  }

  /** The inner `colorProperties.forEach` for one element: each of the eight
      values read is offered to the set in list order. */
  method AddElementColors(found: OrderedSet<string>, style: ComputedStyle, ghost before: seq<string>)
    returns (result: OrderedSet<string>)
    requires found == Collected(before)
    ensures result == Collected(before + Reads(style))
  {
    result := found;
    var k := 0;
    assert before + Reads(style)[..0] == before;
    while k < |ColorProperties|
      invariant 0 <= k <= |ColorProperties|
      invariant result == Collected(before + Reads(style)[..k])
    {
      var color := style(ColorProperties[k]);
      CollectedSnoc(before + Reads(style)[..k], color);
      ReadsSnoc(before, style, k);
      if color != "" && color != "rgba(0, 0, 0, 0)" && color != "transparent" {
        result := Add(result, color);
      }
      k := k + 1;
    }
    assert Reads(style)[..|ColorProperties|] == Reads(style);
  }

  /** `collectPageColors()`: the outer `elements.forEach`, then `Array.from`
      of the set. */
  method CollectPageColors(elements: seq<ComputedStyle>) returns (colors: seq<string>)
    ensures colors == PageColors(elements)
    ensures NoDuplicates(colors)
    ensures forall c :: c in colors <==> c in Values(elements) && Visible(c)
  {
    var found: OrderedSet<string> := Empty();
    var i := 0;
    while i < |elements|
      invariant 0 <= i <= |elements|
      invariant found == Collected(Values(elements[..i]))
    {
      found := AddElementColors(found, elements[i], Values(elements[..i]));
      ValuesSnoc(elements, i);
      i := i + 1;
    }
    assert elements[..|elements|] == elements;
    colors := ToArray(found);
    CollectedIsFirstOccurrence(Values(elements));
  }

  /** The message a popup sends to the page. */
  datatype Request = Request(kind: string)

  /** The reply `{colors: ...}`. */
  datatype ColorsReply = ColorsReply(colors: seq<string>)

  /** What the listener does with one message: the reply it sends, if any,
      and its return value (`true` keeps the reply channel open). */
  datatype ListenerResult = ListenerResult(reply: Option<ColorsReply>, keepsChannelOpen: bool)

  const GetPageColors := "GET_PAGE_COLORS"

  /** The `chrome.runtime.onMessage` listener. */
  function OnMessage(request: Request, elements: seq<ComputedStyle>): (r: ListenerResult)
    ensures r.keepsChannelOpen
    ensures r.reply.Some? <==> request.kind == "GET_PAGE_COLORS"
    ensures r.reply.Some? ==> r.reply.value.colors == PageColors(elements)
  {
    var reply := if request.kind == GetPageColors then Some(ColorsReply(PageColors(elements))) else None;
    ListenerResult(reply, true)
  }
}
