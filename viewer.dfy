/** The page's global `state` together with the document surfaces its
    handlers rewrite: the section cursor and the view derived from it, the
    translatable elements, the language preference and the body classes. */
module Viewer {
  import opened Wrappers
  import opened JsText
  import opened Dom
  import opened Localization
  import opened Preferences

  /** The page as parsed, before any script has run. */
  datatype Document = Document(
    sections: seq<Section>,
    links: seq<TocLink>,
    elements: seq<Element>,
    tocLabel: string,
    langAttr: string,
    languageButtons: seq<Button>,
    fontButtons: seq<Button>,
    bodyClasses: set<string>,
    hasLanguageModal: bool)

  /** Every heading and TOC link text bound to a translatable element names one that exists. */
  predicate WellFormed(doc: Document)
  {
    SectionsBound(doc.sections, doc.elements) && LinksBound(doc.links, doc.elements)
  }

  class Viewer {
    // Navigation state and the view derived from it.
    var current: int
    var sections: seq<Section>
    var links: seq<TocLink>
    var tocLabel: string
    var prevDisabled: bool
    var nextDisabled: bool
    var dropdownOpen: bool
    var scrollRequests: nat

    // Localization.
    const translations: Translations
    var elements: seq<Element>
    var language: string
    var langAttr: string
    var languageButtons: seq<Button>

    // Preferences.
    var store: map<string, string>
    const hasLanguageModal: bool
    var languageModalOpen: bool
    var fontSize: string
    var fontButtons: seq<Button>
    var bodyClasses: set<string>

    /** The cursor is a position of the registry (0 when it is empty), the
        dictionary table has the default language, and every bound text
        names an existing element. */
    ghost predicate Valid()
      reads this
    {
      && DefaultLanguage in translations
      && 0 <= current
      && (if |sections| == 0 then current == 0 else current < |sections|)
      && SectionsBound(sections, elements)
      && LinksBound(links, elements)
    }

    /** `state.sections[state.currentSection]?.getAttribute('data-section')`. */
    function CurrentId(): Option<string>
      reads this
    {
      if 0 <= current < |sections| then Some(sections[current].id) else None
    }

    function CurrentTitle(): string
      reads this
      requires Valid() && |sections| > 0
    {
      SectionTitle(sections[current], links, elements)
    }

    /** The render contract: exactly the current section is active, the TOC
        highlights the links with its id, the tocLabel shows its title, and the
        buttons are disabled at the ends. */
    ghost predicate Consistent()
      reads this
      requires Valid()
    {
      && (|sections| > 0 ==>
            && (forall j :: 0 <= j < |sections| ==> sections[j].active == (j == current))
            && tocLabel == CurrentTitle())
      && (forall k :: 0 <= k < |links| ==> links[k].active == (Some(links[k].id) == CurrentId()))
      && prevDisabled == (current == 0)
      && nextDisabled == (current == |sections| - 1)
    }

    /** The tocLabel shows the current title, or keeps `prior` when there is no current section. */
    ghost predicate LabelShows(prior: string)
      reads this
      requires Valid()
    {
      if |sections| > 0 then tocLabel == CurrentTitle() else tocLabel == prior
    }

    /** The ids and headings of the sections are those they had before. */
    twostate predicate SameRegistry()
      reads this
    {
      && |sections| == |old(sections)|
      && forall j :: 0 <= j < |sections| ==> sections[j].id == old(sections)[j].id && sections[j].heading == old(sections)[j].heading
    }

    /** The TOC links have the ids and texts they had before; only their
        `active` flags may differ. */
    twostate predicate SameLinks()
      reads this
    {
      && |links| == |old(links)|
      && forall k :: 0 <= k < |links| ==> links[k].id == old(links)[k].id && links[k].text == old(links)[k].text
    }

    /** What a successful `showSection(index)` leaves behind, given the
        sections and links it started from (`scrolls` counts the requests to
        scroll to the top). */
    ghost predicate ShownFrom(before: seq<Section>, beforeLinks: seq<TocLink>, scrolls: nat, index: int)
      reads this
      requires Valid()
    {
      && 0 <= index < |before|
      && current == index
      && |sections| == |before|
      && (forall j :: 0 <= j < |sections| ==> sections[j] == before[j].(active := j == index))
      && |links| == |beforeLinks|
      && (forall k :: 0 <= k < |links| ==> links[k] == beforeLinks[k].(active := beforeLinks[k].id == before[index].id))
      && tocLabel == SectionTitle(sections[index], links, elements)
      && prevDisabled == (index == 0)
      && nextDisabled == (index == |sections| - 1)
      && scrollRequests == scrolls + 1
    }

    /** The page before the load handler: cursor 0, language `en`, size medium. */
    constructor (doc: Document, tr: Translations, saved: map<string, string>)
      requires WellFormed(doc) && DefaultLanguage in tr
      ensures Valid()
      ensures current == 0 && sections == doc.sections && links == doc.links && elements == doc.elements
      ensures tocLabel == doc.tocLabel && langAttr == doc.langAttr && translations == tr && store == saved
      ensures languageButtons == doc.languageButtons && fontButtons == doc.fontButtons
      ensures bodyClasses == doc.bodyClasses && hasLanguageModal == doc.hasLanguageModal
      ensures language == DefaultLanguage && fontSize == DefaultFontSize
      ensures !languageModalOpen && !dropdownOpen && scrollRequests == 0
    {
      current := 0;
      sections := doc.sections;
      links := doc.links;
      tocLabel := doc.tocLabel;
      prevDisabled := false;
      nextDisabled := false;
      dropdownOpen := false;
      scrollRequests := 0;
      translations := tr;
      elements := doc.elements;
      language := DefaultLanguage;
      langAttr := doc.langAttr;
      languageButtons := doc.languageButtons;
      store := saved;
      hasLanguageModal := doc.hasLanguageModal;
      languageModalOpen := false;
      fontSize := DefaultFontSize;
      fontButtons := doc.fontButtons;
      bodyClasses := doc.bodyClasses;
    }

    /** `initializeSections`: show the first section when there is one. */
    method InitializeSections()
      requires Valid()
      modifies this`sections, this`current, this`links, this`tocLabel, this`prevDisabled, this`nextDisabled, this`scrollRequests
      ensures Valid()
      ensures |old(sections)| > 0 ==> ShownFrom(old(sections), old(links), old(scrollRequests), 0)
      ensures |old(sections)| == 0 ==> unchanged(this)
    {
      if |sections| > 0 {
        ShowSection(0);
      }
    }

    /** `updateTOCLabel`: the tocLabel shows the current section's title, when there is one. */
    method UpdateTOCLabel()
      requires Valid()
      modifies this`tocLabel
      ensures Valid() && LabelShows(old(tocLabel))
    {
      if 0 <= current < |sections| {
        tocLabel := SectionTitle(sections[current], links, elements);
      }
    }

    /** `showSection(index)`: out of range does nothing; otherwise deactivate
        every section, activate `index`, move the cursor, and re-derive the
        TOC flags, the label and the buttons. */
    method ShowSection(index: int)
      requires Valid()
      modifies this`sections, this`current, this`links, this`tocLabel, this`prevDisabled, this`nextDisabled, this`scrollRequests
      ensures Valid()
      ensures index < 0 || index >= |old(sections)| ==> unchanged(this)
      ensures 0 <= index < |old(sections)| ==> ShownFrom(old(sections), old(links), old(scrollRequests), index) && Consistent()
    {
      if index < 0 || index >= |sections| {
        return;
      }
      ActivateOnly(index);
      current := index;
      UpdateTOCActive();
      UpdateTOCLabel();
      UpdateNavigationButtons();
      scrollRequests := scrollRequests + 1;
      assert forall j :: 0 <= j < |sections| ==> sections[j].active == (j == current);
      assert tocLabel == CurrentTitle();
    }

    /** The section half of `showSection`: remove `active` from every
        section, then add it to section `index`. */
    method ActivateOnly(index: int)
      requires Valid() && 0 <= index < |sections|
      modifies this`sections
      ensures Valid()
      ensures |sections| == |old(sections)|
      ensures forall j :: 0 <= j < |sections| ==> sections[j] == old(sections)[j].(active := j == index)
    {
      var i := 0;
      while i < |sections|
        modifies this`sections
        invariant 0 <= i <= |sections| == |old(sections)|
        invariant forall j :: 0 <= j < i ==> sections[j] == old(sections)[j].(active := false)
        invariant forall j :: i <= j < |sections| ==> sections[j] == old(sections)[j]
      {
        sections := sections[i := sections[i].(active := false)];
        i := i + 1;
      }
      sections := sections[index := sections[index].(active := true)];
      SameHeadingsBound(old(sections), sections, elements);
    }

    /** `updateTOCActive`: a link is active iff its id is the current section's. */
    method UpdateTOCActive()
      requires Valid()
      modifies this`links
      ensures Valid()
      ensures |links| == |old(links)|
      ensures forall k :: 0 <= k < |links| ==> links[k] == old(links)[k].(active := Some(old(links)[k].id) == CurrentId())
    {
      var id := CurrentId();
      var k := 0;
      while k < |links|
        modifies this`links
        invariant 0 <= k <= |links| == |old(links)|
        invariant forall m :: 0 <= m < k ==> links[m] == old(links)[m].(active := Some(old(links)[m].id) == id)
        invariant forall m :: k <= m < |links| ==> links[m] == old(links)[m]
      {
        if Some(links[k].id) == id {
          links := links[k := links[k].(active := true)];
        } else {
          links := links[k := links[k].(active := false)];
        }
        k := k + 1;
      }
      SameTextsBound(old(links), links, elements);
    }

    /** `updateNavigationButtons`. */
    method UpdateNavigationButtons()
      modifies this`prevDisabled, this`nextDisabled
      ensures prevDisabled == (current == 0)
      ensures nextDisabled == (current == |sections| - 1)
    {
      prevDisabled := current == 0;
      nextDisabled := current == |sections| - 1;
    }

    /** The previous button's click handler. */
    method PrevClick()
      requires Valid()
      modifies this`sections, this`current, this`links, this`tocLabel, this`prevDisabled, this`nextDisabled, this`scrollRequests
      ensures Valid()
      ensures old(current) > 0 ==> ShownFrom(old(sections), old(links), old(scrollRequests), old(current) - 1) && Consistent()
      ensures old(current) == 0 ==> unchanged(this)
    {
      if current > 0 {
        ShowSection(current - 1);
      }
    }

    /** The next button's click handler. */
    method NextClick()
      requires Valid()
      modifies this`sections, this`current, this`links, this`tocLabel, this`prevDisabled, this`nextDisabled, this`scrollRequests
      ensures Valid()
      ensures old(current) < |old(sections)| - 1 ==> ShownFrom(old(sections), old(links), old(scrollRequests), old(current) + 1) && Consistent()
      ensures old(current) >= |old(sections)| - 1 ==> unchanged(this)
    {
      if current < |sections| - 1 {
        ShowSection(current + 1);
      }
    }

    /** The TOC toggle's click handler. */
    method TocToggleClick()
      modifies this`dropdownOpen
      ensures dropdownOpen == !old(dropdownOpen)
    {
      dropdownOpen := !dropdownOpen;
    }

    /** The click handler of TOC link `k`: jump to the first section with the
        link's id and close the dropdown; an id no section has changes nothing. */
    method TocLinkClick(k: int)
      requires Valid() && 0 <= k < |links|
      modifies this`sections, this`current, this`links, this`tocLabel, this`prevDisabled, this`nextDisabled, this`scrollRequests, this`dropdownOpen
      ensures Valid()
      ensures var target := FindIndex(SectionIds(old(sections)), old(links)[k].id);
              && (target == -1 ==> unchanged(this))
              && (target != -1 ==> ShownFrom(old(sections), old(links), old(scrollRequests), target) && Consistent() && !dropdownOpen)
    {
      var sectionId := links[k].id;
      var sectionIndex := FindIndex(SectionIds(sections), sectionId);
      FindIndexSpec(SectionIds(sections), sectionId);
      if sectionIndex != -1 {
        ShowSection(sectionIndex);
        dropdownOpen := false;
      }
    }

    /** `setFontSize(size)`. */
    method SetFontSize(size: string)
      modifies this`fontSize, this`bodyClasses
      ensures fontSize == size
      ensures bodyClasses == FontClasses(old(bodyClasses), size)
    {
      fontSize := size;
      bodyClasses := FontClasses(bodyClasses, size);
    }

    /** The click handler of font-size button `i`: it alone becomes active,
        then its size is applied. */
    method FontButtonClick(i: int)
      requires 0 <= i < |fontButtons|
      modifies this`fontButtons, this`fontSize, this`bodyClasses
      ensures |fontButtons| == |old(fontButtons)|
      ensures forall k :: 0 <= k < |fontButtons| ==> fontButtons[k] == old(fontButtons)[k].(active := k == i)
      ensures fontSize == old(fontButtons)[i].value
      ensures bodyClasses == FontClasses(old(bodyClasses), old(fontButtons)[i].value)
    {
      var size := fontButtons[i].value;
      var k := 0;
      while k < |fontButtons|
        modifies this`fontButtons
        invariant 0 <= k <= |fontButtons| == |old(fontButtons)|
        invariant forall m :: 0 <= m < k ==> fontButtons[m] == old(fontButtons)[m].(active := false)
        invariant forall m :: k <= m < |fontButtons| ==> fontButtons[m] == old(fontButtons)[m]
      {
        fontButtons := fontButtons[k := fontButtons[k].(active := false)];
        k := k + 1;
      }
      fontButtons := fontButtons[i := fontButtons[i].(active := true)];
      SetFontSize(size);
    }

    /** `updateLanguage`: translate every element with the resolved
        dictionary, then refresh the tocLabel. */
    method UpdateLanguage()
      requires Valid()
      modifies this`elements, this`tocLabel
      ensures Valid()
      ensures elements == Translate(old(elements), Resolve(translations, language))
      ensures LabelShows(old(tocLabel))
      ensures old(Consistent()) ==> Consistent()
    {
      var translation := Resolve(translations, language);
      var i := 0;
      while i < |elements|
        modifies this`elements
        invariant 0 <= i <= |elements| == |old(elements)|
        invariant forall j :: 0 <= j < i ==> elements[j] == ApplyEntry(old(elements)[j], translation)
        invariant forall j :: i <= j < |elements| ==> elements[j] == old(elements)[j]
      {
        var element := elements[i];
        var key := element.key;
        if key in translation && translation[key] != "" {
          if IsRichSurface(element) {
            element := element.(content := Markup(translation[key]));
          } else {
            element := element.(content := PlainText(translation[key]));
          }
        }
        var urlKey := element.urlKey;
        if urlKey.Some? && urlKey.value != "" && urlKey.value in translation && translation[urlKey.value] != "" {
          element := element.(href := translation[urlKey.value]);
        }
        elements := elements[i := element];
        i := i + 1;
      }
      TranslatePointwise(old(elements), translation, elements);
      UpdateTOCLabel();
    }

    /** `setLanguage(lang)`: record the requested code, set the document's
        `lang` attribute to it, persist it, and translate. */
    method SetLanguage(lang: string)
      requires Valid()
      modifies this`language, this`langAttr, this`store, this`elements, this`tocLabel
      ensures Valid()
      ensures language == lang && langAttr == lang
      ensures store == old(store)[StorageKey := lang]
      ensures elements == Translate(old(elements), Resolve(translations, lang))
      ensures LabelShows(old(tocLabel))
      ensures old(Consistent()) ==> Consistent()
    {
      language := lang;
      langAttr := lang;
      store := store[StorageKey := lang];
      UpdateLanguage();
    }

    /** `updateLanguageButtons(lang)`: a language button is active iff its code is `lang`. */
    method UpdateLanguageButtons(lang: string)
      modifies this`languageButtons
      ensures |languageButtons| == |old(languageButtons)|
      ensures forall k :: 0 <= k < |languageButtons| ==>
                languageButtons[k] == old(languageButtons)[k].(active := old(languageButtons)[k].value == lang)
    {
      var k := 0;
      while k < |languageButtons|
        modifies this`languageButtons
        invariant 0 <= k <= |languageButtons| == |old(languageButtons)|
        invariant forall m :: 0 <= m < k ==> languageButtons[m] == old(languageButtons)[m].(active := old(languageButtons)[m].value == lang)
        invariant forall m :: k <= m < |languageButtons| ==> languageButtons[m] == old(languageButtons)[m]
      {
        var button := languageButtons[k].(active := false);
        if button.value == lang {
          button := button.(active := true);
        }
        languageButtons := languageButtons[k := button];
        k := k + 1;
      }
    }

    /** The click handler of language button `i` in the text-control menu. */
    method LanguageButtonClick(i: int)
      requires Valid() && 0 <= i < |languageButtons|
      modifies this`languageButtons, this`language, this`langAttr, this`store, this`elements, this`tocLabel
      ensures Valid()
      ensures |languageButtons| == |old(languageButtons)|
      ensures forall k :: 0 <= k < |languageButtons| ==> languageButtons[k] == old(languageButtons)[k].(active := k == i)
      ensures language == old(languageButtons)[i].value && langAttr == language
      ensures store == old(store)[StorageKey := language]
      ensures elements == Translate(old(elements), Resolve(translations, language))
      ensures LabelShows(old(tocLabel))
      ensures old(Consistent()) ==> Consistent()
    {
      var lang := languageButtons[i].value;
      var k := 0;
      while k < |languageButtons|
        modifies this`languageButtons
        invariant 0 <= k <= |languageButtons| == |old(languageButtons)|
        invariant forall m :: 0 <= m < k ==> languageButtons[m] == old(languageButtons)[m].(active := false)
        invariant forall m :: k <= m < |languageButtons| ==> languageButtons[m] == old(languageButtons)[m]
      {
        languageButtons := languageButtons[k := languageButtons[k].(active := false)];
        k := k + 1;
      }
      languageButtons := languageButtons[i := languageButtons[i].(active := true)];
      SetLanguage(lang);
    }

    /** `checkLanguagePreference`: a saved code is applied (and stays saved);
        without one the page shows the default language, saves nothing and
        opens the language modal. */
    method CheckLanguagePreference()
      requires Valid()
      modifies this`language, this`langAttr, this`store, this`elements, this`tocLabel, this`languageButtons, this`languageModalOpen
      ensures Valid()
      ensures store == old(store)
      ensures language == (match SavedLanguage(old(store)) case Some(c) => c case None => DefaultLanguage)
      ensures langAttr == language
      ensures elements == Translate(old(elements), Resolve(translations, language))
      ensures LabelShows(old(tocLabel))
      ensures old(Consistent()) ==> Consistent()
      ensures SavedLanguage(old(store)).Some? ==>
                && languageModalOpen == old(languageModalOpen)
                && |languageButtons| == |old(languageButtons)|
                && forall k :: 0 <= k < |languageButtons| ==>
                     languageButtons[k] == old(languageButtons)[k].(active := old(languageButtons)[k].value == language)
      ensures SavedLanguage(old(store)).None? ==>
                && languageModalOpen == (old(languageModalOpen) || hasLanguageModal)
                && languageButtons == old(languageButtons)
    {
      var savedLanguage := SavedLanguage(store);
      if savedLanguage.Some? {
        SetLanguage(savedLanguage.value);
        UpdateLanguageButtons(savedLanguage.value);
        assert store == old(store);
      } else {
        language := DefaultLanguage;
        langAttr := DefaultLanguage;
        UpdateLanguage();
        if hasLanguageModal {
          languageModalOpen := true;
        }
      }
    }

    /** `selectLanguage(lang)`, the language modal's choice: apply and persist
        `lang`, mark its button, close the modal. */
    method SelectLanguage(lang: string)
      requires Valid()
      modifies this`language, this`langAttr, this`store, this`elements, this`tocLabel, this`languageButtons, this`languageModalOpen
      ensures Valid()
      ensures language == lang && langAttr == lang
      ensures store == old(store)[StorageKey := lang]
      ensures elements == Translate(old(elements), Resolve(translations, lang))
      ensures LabelShows(old(tocLabel))
      ensures old(Consistent()) ==> Consistent()
      ensures |languageButtons| == |old(languageButtons)|
      ensures forall k :: 0 <= k < |languageButtons| ==>
                languageButtons[k] == old(languageButtons)[k].(active := old(languageButtons)[k].value == lang)
      ensures languageModalOpen == (old(languageModalOpen) && !hasLanguageModal)
    {
      SetLanguage(lang);
      UpdateLanguageButtons(lang);
      if hasLanguageModal {
        languageModalOpen := false;
      }
    }

    /** The navigation half of the load handler: `initializeSections`, then
        the button and TOC refreshes that `initializeNavigation` and
        `initializeTOC` end with. */
    method InitializeNavigationView()
      requires Valid()
      modifies this`sections, this`current, this`links, this`tocLabel, this`prevDisabled, this`nextDisabled, this`scrollRequests
      ensures Valid() && Consistent() && SameRegistry() && SameLinks()
      ensures |sections| > 0 ==> current == 0
      ensures |sections| == 0 ==> tocLabel == old(tocLabel)
      ensures scrollRequests == old(scrollRequests) + (if |sections| > 0 then 1 else 0)
    {
      InitializeSections();
      UpdateNavigationButtons();
      label BeforeFlags:
      UpdateTOCActive();
      if |sections| > 0 {
        TitleIgnoresFlags(sections[current], old@BeforeFlags(links), links, elements);
      }
    }

    /** The load handler's part in this model: the navigation view, then the
        language preference. */
    method Load()
      requires Valid()
      modifies this`sections, this`current, this`links, this`tocLabel, this`prevDisabled, this`nextDisabled, this`scrollRequests
      modifies this`language, this`langAttr, this`store, this`elements, this`languageButtons, this`languageModalOpen
      ensures Valid() && Consistent() && SameRegistry() && SameLinks()
      ensures |sections| > 0 ==> current == 0
      ensures |sections| == 0 ==> tocLabel == old(tocLabel)
      ensures scrollRequests == old(scrollRequests) + (if |sections| > 0 then 1 else 0)
      ensures dropdownOpen == old(dropdownOpen)
      ensures store == old(store)
      ensures language == (match SavedLanguage(old(store)) case Some(c) => c case None => DefaultLanguage)
      ensures langAttr == language
      ensures elements == Translate(old(elements), Resolve(translations, language))
      ensures languageModalOpen == (old(languageModalOpen) || (SavedLanguage(old(store)).None? && hasLanguageModal))
      ensures SavedLanguage(old(store)).Some? ==>
                && |languageButtons| == |old(languageButtons)|
                && forall k :: 0 <= k < |languageButtons| ==>
                     languageButtons[k] == old(languageButtons)[k].(active := old(languageButtons)[k].value == language)
      ensures SavedLanguage(old(store)).None? ==> languageButtons == old(languageButtons)
      ensures fontSize == old(fontSize) && bodyClasses == old(bodyClasses) && fontButtons == old(fontButtons)
    {
      InitializeNavigationView();
      CheckLanguagePreference();
    }
  }
}
