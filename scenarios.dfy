/** Whole-page runs of the viewer: each method builds a page, drives it
    through its handlers and returns what a user would then see. */
module Scenarios {
  import opened Wrappers
  import opened JsText
  import opened Dom
  import opened Localization
  import opened Preferences
  import opened Viewer

  /** A page whose sections have the given ids and no headings, and nothing else. */
  function BareDocument(ids: seq<string>): (doc: Document)
    ensures WellFormed(doc) && SectionIds(doc.sections) == ids
  {
    var sections := seq(|ids|, j requires 0 <= j < |ids| => Section(ids[j], None, false));
    Document(sections, [], [], FallbackTitle, DefaultLanguage, [], [], {}, true)
  }

  /** A consistent view shows exactly one section. */
  lemma OneSectionActive(v: Viewer)
    requires v.Valid() && v.Consistent() && |v.sections| > 0
    ensures CountTrue(SectionFlags(v.sections)) == 1
  {
    CountSingleton(SectionFlags(v.sections), v.current);
  }

  /** With distinct link ids, a consistent view highlights exactly one TOC
      link when the current section has one, and none otherwise. */
  lemma OneLinkActive(v: Viewer)
    requires v.Valid() && v.Consistent() && |v.sections| > 0 && Distinct(LinkIds(v.links))
    ensures CountTrue(LinkFlags(v.links)) == if v.sections[v.current].id in LinkIds(v.links) then 1 else 0
  {
    CountMatches(LinkIds(v.links), LinkFlags(v.links), v.sections[v.current].id);
  }

  /** Sections "cover", "readingI", "closing": going to 1 and pressing next
      lands on "closing"; pressing next again stays there. */
  method WalkThreeSections() returns (afterNext: string, afterSecondNext: string, nextDisabled: bool)
    ensures afterNext == "closing" && afterSecondNext == "closing" && nextDisabled
  {
    var doc := BareDocument(["cover", "readingI", "closing"]);
    var v := new Viewer(doc, map[DefaultLanguage := map[]], map[]);
    v.Load();
    v.ShowSection(1);
    v.NextClick();
    assert v.sections[2].id == SectionIds(doc.sections)[2];
    afterNext := v.sections[v.current].id;
    v.NextClick();
    afterSecondNext := v.sections[v.current].id;
    nextDisabled := v.nextDisabled;
  }

  /** Without sections the cursor stays at 0, previous is disabled, next is
      enabled but pressing it changes nothing. */
  method EmptyRegistryIsInert() returns (prevDisabled: bool, nextDisabled: bool, cursor: int)
    ensures prevDisabled && !nextDisabled && cursor == 0
  {
    var v := new Viewer(BareDocument([]), map[DefaultLanguage := map[]], map[]);
    v.Load();
    v.NextClick();
    v.PrevClick();
    prevDisabled, nextDisabled, cursor := v.prevDisabled, v.nextDisabled, v.current;
  }

  /** First run with empty storage shows the default language, saves nothing
      and opens the language modal; choosing `choice` saves it and closes the
      modal; a reload then shows `choice` with the modal closed. */
  method FirstRunThenReload(doc: Document, tr: Translations, choice: string)
      returns (firstLanguage: string, firstModal: bool, firstSaved: Option<string>,
               chosenModal: bool, reloadLanguage: string, reloadModal: bool)
    requires WellFormed(doc) && DefaultLanguage in tr && choice != ""
    ensures firstLanguage == DefaultLanguage && firstSaved == None && firstModal == doc.hasLanguageModal
    ensures !chosenModal
    ensures reloadLanguage == choice && !reloadModal
  {
    var v := new Viewer(doc, tr, map[]);
    v.Load();
    firstLanguage, firstModal, firstSaved := v.language, v.languageModalOpen, SavedLanguage(v.store);
    v.SelectLanguage(choice);
    chosenModal := v.languageModalOpen;
    var w := new Viewer(doc, tr, v.store);
    w.Load();
    reloadLanguage, reloadModal := w.language, w.languageModalOpen;
  }

  /** Choosing an unknown code renders exactly what choosing the default
      language renders, yet the stored code and the `lang` attribute are the
      requested one. */
  method UnknownCodeRendersDefault(doc: Document, tr: Translations, code: string)
      returns (unknownView: seq<Element>, defaultView: seq<Element>, attr: string, saved: Option<string>)
    requires WellFormed(doc) && DefaultLanguage in tr && code !in tr && code != ""
    ensures unknownView == defaultView
    ensures attr == code && saved == Some(code)
  {
    var u := new Viewer(doc, tr, map[]);
    u.SetLanguage(code);
    var d := new Viewer(doc, tr, map[]);
    d.SetLanguage(DefaultLanguage);
    unknownView, defaultView, attr, saved := u.elements, d.elements, u.langAttr, SavedLanguage(u.store);
  }

  /** A sample page whose only section takes its heading from a translated
      element, with an English and a Korean dictionary. */
  function SampleDocument(): (doc: Document)
    ensures WellFormed(doc)
  {
    Document(
      [Section("cover", Some(Translatable(0)), false)],
      [TocLink("cover", Translatable(1), false)],
      [ Element("cover-title", None, {}, PlainText("Cover"), ""),
        Element("toc-cover", None, {"toc-item"}, PlainText("Cover"), ""),
        Element("feedback", Some("feedback-url"), {}, PlainText("Feedback"), "#") ],
      FallbackTitle, DefaultLanguage, [Button("en", false), Button("ko", false)], [], {}, true)
  }

  const SampleTranslations: Translations :=
    map[
      "en" := map["cover-title" := "en:cover", "toc-cover" := "en:toc-cover", "feedback" := "en:feedback", "feedback-url" := "en:url"],
      "ko" := map["cover-title" := "ko:cover", "toc-cover" := "", "feedback-url" := "ko:url"]]

  /** The sample elements under the Korean dictionary: the heading is
      translated, the empty Korean value and the missing Korean key keep
      the English text, and the link target is the Korean one. */
  lemma SampleKorean()
    ensures Translate(SampleDocument().elements, SampleTranslations["ko"]) ==
      [ Element("cover-title", None, {}, PlainText("ko:cover"), ""),
        Element("toc-cover", None, {"toc-item"}, PlainText("Cover"), ""),
        Element("feedback", Some("feedback-url"), {}, PlainText("Feedback"), "ko:url") ]
  {
  }

  /** A saved Korean preference: the page loads in Korean without the
      modal, and the label follows the translated heading. */
  method SavedKoreanPage() returns (title: string, tocText: Content, feedback: Content, href: string, modal: bool)
    ensures title == "ko:cover" && tocText == PlainText("Cover") && feedback == PlainText("Feedback")
    ensures href == "ko:url" && !modal
  {
    var doc := SampleDocument();
    var v := new Viewer(doc, SampleTranslations, map[StorageKey := "ko"]);
    v.Load();
    SampleKorean();
    assert v.elements[0].content == PlainText("ko:cover");
    TrimUntrimmed("ko:cover");
    title, tocText, feedback := v.tocLabel, v.elements[1].content, v.elements[2].content;
    href, modal := v.elements[2].href, v.languageModalOpen;
  }

  /** Large and then medium leaves no size class on the body. */
  method LargeThenMediumPage(doc: Document, tr: Translations) returns (classes: set<string>)
    requires WellFormed(doc) && DefaultLanguage in tr
    ensures forall c :: c in classes ==> !IsFontClass(c)
    ensures forall c :: !IsFontClass(c) ==> (c in classes <==> c in doc.bodyClasses)
  {
    var v := new Viewer(doc, tr, map[]);
    v.SetFontSize("large");
    v.SetFontSize("medium");
    classes := v.bodyClasses;
  }
}
