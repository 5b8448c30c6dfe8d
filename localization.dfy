/** The localization store and what `updateLanguage` does to each
    translatable element. Values are opaque strings. */
module Localization {
  import opened Wrappers
  import opened Dom

  type Dictionary = map<string, string>

  /** Language code to dictionary (the `translations` table). */
  type Translations = map<string, Dictionary>

  const DefaultLanguage := "en"

  /** `translations[lang] || translations.en`: the requested language's
      dictionary when it exists, the default language's otherwise. */
  function Resolve(tr: Translations, lang: string): Dictionary
    requires DefaultLanguage in tr
  {
    if lang in tr then tr[lang] else tr[DefaultLanguage]
  }

  /** An unknown code resolves exactly as the default language does. */
  lemma UnknownIsDefault(tr: Translations, lang: string)
    requires DefaultLanguage in tr && lang !in tr
    ensures Resolve(tr, lang) == Resolve(tr, DefaultLanguage)
  {
  }

  /** `translation[key]` read as a condition: present and not the empty string. */
  function Lookup(d: Dictionary, key: string): Option<string>
  {
    if key in d && d[key] != "" then Some(d[key]) else None
  }

  /** Reading text, carol text and the mission statement receive markup. */
  predicate IsRichSurface(e: Element)
  {
    "reading-text" in e.classes || "carol-text" in e.classes || "info-mission" in e.classes
  }

  /** The content an element gets when value `v` is written to it. */
  function Rendered(e: Element, v: string): (c: Content)
    ensures IsRichSurface(e) <==> c.Markup?
    ensures ContentText(c) == v
  {
    if IsRichSurface(e) then Markup(v) else PlainText(v)
  }

  /** The element has a non-empty `data-translate-url` whose value `d` resolves. */
  predicate UrlResolves(e: Element, d: Dictionary)
  {
    e.urlKey.Some? && e.urlKey.value != "" && Lookup(d, e.urlKey.value).Some?
  }

  /** One element after `updateLanguage` has visited it with dictionary `d`. */
  function ApplyEntry(e: Element, d: Dictionary): Element
  {
    var written := if Lookup(d, e.key).Some? then e.(content := Rendered(e, d[e.key])) else e;
    if UrlResolves(e, d) then written.(href := d[e.urlKey.value]) else written
  }

  /** Every translatable element after `updateLanguage`, in document order. */
  function Translate(es: seq<Element>, d: Dictionary): seq<Element>
  {
    if es == [] then [] else [ApplyEntry(es[0], d)] + Translate(es[1..], d)
  }

  lemma {:induction false} TranslateAt(es: seq<Element>, d: Dictionary, i: nat)
    requires i < |es|
    ensures |Translate(es, d)| == |es| && Translate(es, d)[i] == ApplyEntry(es[i], d)
  {
    if i > 0 {
      TranslateAt(es[1..], d, i - 1);
    } else if |es| > 1 {
      TranslateAt(es[1..], d, 0);
    }
  }

  lemma {:induction false} TranslateLength(es: seq<Element>, d: Dictionary)
    ensures |Translate(es, d)| == |es|
  {
    if es != [] {
      TranslateLength(es[1..], d);
    }
  }

  /** A list that agrees element by element with `Translate` is `Translate`. */
  lemma TranslatePointwise(es: seq<Element>, d: Dictionary, r: seq<Element>)
    requires |r| == |es|
    requires forall j :: 0 <= j < |es| ==> r[j] == ApplyEntry(es[j], d)
    ensures r == Translate(es, d)
  {
    TranslateLength(es, d);
    forall j | 0 <= j < |es| ensures r[j] == Translate(es, d)[j] {
      TranslateAt(es, d, j);
    }
  }

  /** What translation does to element `i`: its key, url key and classes stay;
      its content is replaced by the dictionary value (as markup on rich
      surfaces, as text elsewhere) iff the value is present and non-empty; its
      `href` is replaced iff the url key resolves; nothing falls back to
      another language. */
  lemma TranslatedElement(es: seq<Element>, d: Dictionary, i: nat)
    requires i < |es|
    ensures |Translate(es, d)| == |es|
    ensures Translate(es, d)[i].key == es[i].key
    ensures Translate(es, d)[i].urlKey == es[i].urlKey
    ensures Translate(es, d)[i].classes == es[i].classes
    ensures es[i].key in d && d[es[i].key] != "" ==>
              Translate(es, d)[i].content == (if IsRichSurface(es[i]) then Markup(d[es[i].key]) else PlainText(d[es[i].key]))
    ensures !(es[i].key in d && d[es[i].key] != "") ==> Translate(es, d)[i].content == es[i].content
    ensures UrlResolves(es[i], d) ==> Translate(es, d)[i].href == d[es[i].urlKey.value]
    ensures !UrlResolves(es[i], d) ==> Translate(es, d)[i].href == es[i].href
  {
    TranslateAt(es, d, i);
  }

  /** With a dictionary that covers every key, every element shows its value. */
  lemma FullCoverage(es: seq<Element>, d: Dictionary)
    requires forall j :: 0 <= j < |es| ==> es[j].key in d && d[es[j].key] != ""
    ensures |Translate(es, d)| == |es|
    ensures forall j :: 0 <= j < |es| ==> ContentText(Translate(es, d)[j].content) == d[es[j].key]
  {
  }

  /** Applying the same dictionary twice is applying it once. */
  lemma {:induction false} TranslateIdempotent(es: seq<Element>, d: Dictionary)
    ensures Translate(Translate(es, d), d) == Translate(es, d)
  {
    if es != [] {
      TranslateIdempotent(es[1..], d);
      assert Translate(es, d)[1..] == Translate(es[1..], d);
    }
  }
}
