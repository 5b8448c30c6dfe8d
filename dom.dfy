/** The parts of the page the viewer reads and writes, as plain records:
    content sections, table-of-contents links, translatable elements and
    the toggle buttons of the text-control menu. */
module Dom {
  import opened Wrappers
  import opened JsText

  /** Where a displayed text comes from: fixed markup, or the current
      content of one of the translatable elements (by its position in the
      document's list of translatable elements). */
  datatype TextSource = Literal(text: string) | Translatable(element: nat)

  /** What an element currently shows, and by which DOM property it was
      written: `textContent` (plain text) or `innerHTML` (markup). */
  datatype Content = PlainText(text: string) | Markup(html: string)

  /** An element carrying `data-translate` (key), optionally
      `data-translate-url` (urlKey), its class list, content and `href`. */
  datatype Element = Element(
    key: string,
    urlKey: Option<string>,
    classes: set<string>,
    content: Content,
    href: string)

  /** A `.section` element: its `data-section` id, its `h1` if it has one,
      and whether it carries the `active` class. */
  datatype Section = Section(id: string, heading: Option<TextSource>, active: bool)

  /** A `.toc-link`: the `data-section` id it points at, its text, and
      whether it carries the `active` class. */
  datatype TocLink = TocLink(id: string, text: TextSource, active: bool)

  /** A font-size or language button: its `data-size` / `data-lang` value
      and whether it carries the `active` class. */
  datatype Button = Button(value: string, active: bool)

  /** The title shown when a section has neither a heading nor a TOC link. */
  const FallbackTitle := "Table of Contents"

  /** `textContent` of an element; markup is not parsed in this model. */
  function ContentText(c: Content): string
  {
    match c
    case PlainText(t) => t
    case Markup(h) => h
  }

  predicate Bound(src: TextSource, elements: seq<Element>)
  {
    src.Translatable? ==> src.element < |elements|
  }

  /** Every heading refers to an existing translatable element. */
  predicate SectionsBound(sections: seq<Section>, elements: seq<Element>)
  {
    forall j :: 0 <= j < |sections| && sections[j].heading.Some? ==> Bound(sections[j].heading.value, elements)
  }

  /** Every TOC link text refers to an existing translatable element. */
  predicate LinksBound(links: seq<TocLink>, elements: seq<Element>)
  {
    forall k :: 0 <= k < |links| ==> Bound(links[k].text, elements)
  }

  /** Rewriting only the `active` flags keeps every heading bound. */
  lemma SameHeadingsBound(before: seq<Section>, after: seq<Section>, elements: seq<Element>)
    requires SectionsBound(before, elements) && |after| == |before|
    requires forall j :: 0 <= j < |after| ==> after[j].heading == before[j].heading
    ensures SectionsBound(after, elements)
  {
  }

  /** Rewriting only the `active` flags keeps every link text bound. */
  lemma SameTextsBound(before: seq<TocLink>, after: seq<TocLink>, elements: seq<Element>)
    requires LinksBound(before, elements) && |after| == |before|
    requires forall k :: 0 <= k < |after| ==> after[k].text == before[k].text
    ensures LinksBound(after, elements)
  {
  }

  function TextOf(src: TextSource, elements: seq<Element>): string
    requires Bound(src, elements)
  {
    match src
    case Literal(t) => t
    case Translatable(i) => ContentText(elements[i].content)
  }

  function SectionIds(sections: seq<Section>): (ids: seq<string>)
    ensures |ids| == |sections| && forall j :: 0 <= j < |sections| ==> ids[j] == sections[j].id
  {
    seq(|sections|, j requires 0 <= j < |sections| => sections[j].id)
  }

  function LinkIds(links: seq<TocLink>): (ids: seq<string>)
    ensures |ids| == |links| && forall k :: 0 <= k < |links| ==> ids[k] == links[k].id
  {
    seq(|links|, k requires 0 <= k < |links| => links[k].id)
  }

  /** `Array.prototype.findIndex` on ids: the first position holding `id`,
      or -1 when there is none. */
  function FindIndex(ids: seq<string>, id: string): int
  {
    if |ids| == 0 then -1
    else if ids[0] == id then 0
    else
      var r := FindIndex(ids[1..], id);
      if r == -1 then -1 else r + 1
  }

  /** `FindIndex` answers -1 exactly when the id is absent, and otherwise
      a position holding the id with no earlier one. */
  lemma {:induction false} FindIndexSpec(ids: seq<string>, id: string)
    ensures -1 <= FindIndex(ids, id) < |ids|
    ensures FindIndex(ids, id) == -1 <==> id !in ids
    ensures FindIndex(ids, id) >= 0 ==> ids[FindIndex(ids, id)] == id && id !in ids[..FindIndex(ids, id)]
  {
    if |ids| > 0 && ids[0] != id {
      FindIndexSpec(ids[1..], id);
      var r := FindIndex(ids[1..], id);
      assert ids == [ids[0]] + ids[1..];
      if r >= 0 {
        assert ids[..r + 1] == [ids[0]] + ids[1..][..r];
      }
    }
  }

  /** The section title by precedence: its trimmed heading; else the trimmed
      text of the first TOC link with the same id; else the fallback. */
  function SectionTitle(section: Section, links: seq<TocLink>, elements: seq<Element>): string
    requires section.heading.Some? ==> Bound(section.heading.value, elements)
    requires LinksBound(links, elements)
  {
    match section.heading
    case Some(h) => Trim(TextOf(h, elements))
    case None =>
      var k := FindIndex(LinkIds(links), section.id);
      FindIndexSpec(LinkIds(links), section.id);
      if k >= 0 then Trim(TextOf(links[k].text, elements)) else FallbackTitle
  }

  /** The title depends on the links' ids and texts, not on their flags. */
  lemma TitleIgnoresFlags(section: Section, before: seq<TocLink>, after: seq<TocLink>, elements: seq<Element>)
    requires section.heading.Some? ==> Bound(section.heading.value, elements)
    requires LinksBound(before, elements) && LinksBound(after, elements) && |after| == |before|
    requires forall k :: 0 <= k < |after| ==> after[k].id == before[k].id && after[k].text == before[k].text
    ensures SectionTitle(section, after, elements) == SectionTitle(section, before, elements)
  {
    assert LinkIds(after) == LinkIds(before);
    FindIndexSpec(LinkIds(before), section.id);
  }

  /** The title precedence, stated without the lookup that implements it: the
      heading wins; without one, the first TOC link with the section's id; and
      without either, the fallback. */
  lemma TitlePrecedence(section: Section, links: seq<TocLink>, elements: seq<Element>)
    requires section.heading.Some? ==> Bound(section.heading.value, elements)
    requires LinksBound(links, elements)
    ensures section.heading.Some? ==> SectionTitle(section, links, elements) == Trim(TextOf(section.heading.value, elements))
    ensures section.heading.None? ==>
              forall k :: 0 <= k < |links| && links[k].id == section.id && (forall m :: 0 <= m < k ==> links[m].id != section.id)
                ==> SectionTitle(section, links, elements) == Trim(TextOf(links[k].text, elements))
    ensures section.heading.None? && (forall k :: 0 <= k < |links| ==> links[k].id != section.id) ==>
              SectionTitle(section, links, elements) == FallbackTitle
  {
    if section.heading.None? {
      var ids := LinkIds(links);
      var r := FindIndex(ids, section.id);
      FindIndexSpec(ids, section.id);
      forall k | 0 <= k < |links| && links[k].id == section.id && (forall m :: 0 <= m < k ==> links[m].id != section.id)
        ensures r == k
      {
        assert ids[k] == section.id;
      }
      if forall k :: 0 <= k < |links| ==> links[k].id != section.id {
        assert section.id !in ids;
      }
    }
  }

  /** The `active` flags of a list of sections, and of a list of TOC links. */
  function SectionFlags(sections: seq<Section>): (flags: seq<bool>)
    ensures |flags| == |sections| && forall j :: 0 <= j < |sections| ==> flags[j] == sections[j].active
  {
    seq(|sections|, j requires 0 <= j < |sections| => sections[j].active)
  }

  function LinkFlags(links: seq<TocLink>): (flags: seq<bool>)
    ensures |flags| == |links| && forall k :: 0 <= k < |links| ==> flags[k] == links[k].active
  {
    seq(|links|, k requires 0 <= k < |links| => links[k].active)
  }

  /** How many flags are set. */
  function CountTrue(flags: seq<bool>): nat
  {
    if flags == [] then 0 else (if flags[0] then 1 else 0) + CountTrue(flags[1..])
  }

  /** Flags set exactly at position `i` count one when `i` is a position and none otherwise. */
  lemma {:induction false} CountSingleton(flags: seq<bool>, i: int)
    requires forall j :: 0 <= j < |flags| ==> flags[j] == (j == i)
    ensures CountTrue(flags) == if 0 <= i < |flags| then 1 else 0
  {
    if flags != [] {
      CountSingleton(flags[1..], i - 1);
    }
  }

  /** Each id at most once. */
  predicate Distinct(ids: seq<string>)
  {
    forall p, q :: 0 <= p < q < |ids| ==> ids[p] != ids[q]
  }

  /** Flags set exactly where the id is `x`: with distinct ids, exactly one is
      set when `x` occurs, and none when it does not. */
  lemma {:induction false} CountMatches(ids: seq<string>, flags: seq<bool>, x: string)
    requires |flags| == |ids| && Distinct(ids)
    requires forall k :: 0 <= k < |ids| ==> flags[k] == (ids[k] == x)
    ensures CountTrue(flags) == if x in ids then 1 else 0
  {
    if ids != [] {
      CountMatches(ids[1..], flags[1..], x);
      if ids[0] == x {
        assert x !in ids[1..] by {
          forall q | 0 <= q < |ids[1..]| ensures ids[1..][q] != x {
            assert ids[1..][q] == ids[q + 1];
          }
        }
      }
      assert x in ids <==> ids[0] == x || x in ids[1..] by {
        assert ids == [ids[0]] + ids[1..];
      }
    }
  }
}
