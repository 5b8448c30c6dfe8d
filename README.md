# Vox Sacra programme viewer: navigation and localization

A Dafny model of the section navigation and localization engine of the
Vox Sacra single-page programme viewer (`js/script.js`). The page shows one
content section at a time. Previous/next buttons and a table of contents
(TOC) move between sections. A label names the current section. Every
element tagged with a translation key can be rewritten from a per-language
dictionary, and the chosen language is kept in browser storage.

The DOM is abstracted into plain data:

- a section is a record `Section(id, heading, active)`;
- a TOC link is `TocLink(id, text, active)`;
- a translatable element is `Element(key, urlKey, classes, content, href)`;
- the toggle buttons of the text-control menu are `Button(value, active)`.

A heading or link text is either fixed markup or the current content of a
translatable element (`TextSource`). Because of this, translating the page
can change the title that the TOC label shows. Element content records
which DOM property wrote it: `PlainText` for `textContent`, `Markup` for
`innerHTML`. The dictionaries are a `map<string, map<string, string>>` with
opaque values. The browser storage is a `map<string, string>`.

Modules:

- `JsText` (`text.dfy`): `String.prototype.trim`.
- `Dom` (`dom.dfy`): the records, `findIndex`, the title precedence of
  `getSectionTitle`, and counting active flags.
- `Localization` (`localization.dfy`): dictionary resolution and what
  `updateLanguage` does to each element.
- `Preferences` (`preferences.dfy`): the storage key, reading a saved
  preference, and the font-size body classes.
- `Viewer` (`viewer.dfy`): one class holding the global `state` object and
  the document surfaces its handlers rewrite. Each function of the source
  that changes the page, and each click handler, is a method. The loops
  over sections, TOC links, elements and buttons are `while` loops with
  invariants. `initializeSections` and the refreshes that end
  `initializeNavigation` and `initializeTOC` are combined into one method,
  `InitializeNavigationView`. `getSectionTitle` and `findIndex` compute
  values without changing the page, so they are the functions
  `Dom.SectionTitle` and `Dom.FindIndex`.
- `Scenarios` (`scenarios.dfy`): lemmas about a consistent view (how many
  sections and links are active), and whole-page runs. Each run builds a
  page, drives it through the handlers, and states what the user then sees.

`Viewer.Valid()` is the object invariant. The cursor is a position of the
section list, or 0 when the list is empty. The dictionary table has `en`.
Every bound text names an existing element. `Viewer.Consistent()` is the
render contract:

- exactly the current section is active;
- the TOC links with the current section's id, and only those, are active;
- the label shows the current section's title;
- previous is disabled iff the cursor is 0;
- next is disabled iff the cursor is the last index.

`Load` establishes `Consistent()`, and every navigation handler that calls
`showSection` re-establishes it. Three clicks change nothing at all:
previous on the first section, next on the last one, and a TOC link whose
id no section has. A TOC link whose first matching section is already
current still records a scroll request and closes the dropdown.
`UpdateLanguage` and every method that calls it re-derive the label, so they
preserve it too.

Edge cases of the code that the model keeps:

- The document's `lang` attribute and the stored preference keep the
  *requested* code even when it has no dictionary and the default
  dictionary is shown (`js/script.js:568-578`).
  `Scenarios.UnknownCodeRendersDefault` states this.
- With no sections, previous is disabled (`0 === 0`) and next is enabled
  (`0 === -1` is false). Next still does nothing, because of its guard
  (`js/script.js:131`). `Scenarios.EmptyRegistryIsInert` states this.
- A saved preference that is the empty string counts as no preference,
  because the code tests it for truthiness. A dictionary value that is the
  empty string is not applied, for the same reason.

## Model

| member | source | states |
|---|---|---|
| JsText.TrimStartSpec | js/script.js:72 | the start of `trim` drops exactly a leading run of white space and stops at the first other character |
| JsText.TrimEndSpec | js/script.js:78 | the end of `trim` drops exactly a trailing run of white space and stops at the last other character |
| JsText.TrimIsSlice | js/script.js:72-78 | a trimmed text is one contiguous slice of the input, with only white space outside it and none at either end |
| JsText.TrimIdempotent | js/script.js:72-78 | trimming a title a second time changes nothing |
| Dom.FindIndex | js/script.js:171-173 | `findIndex` over the sections' ids with `===`; its meaning is stated by `FindIndexSpec` |
| Dom.FindIndexSpec | js/script.js:171-175 | `findIndex` gives -1 exactly when no section has the id, and otherwise the first position with it |
| Dom.SectionTitle | js/script.js:70-82 | `getSectionTitle`: the trimmed heading, else the trimmed text of the first TOC link that `FindIndex` finds for the section's id, else the fallback; its meaning without the lookup is stated by `TitlePrecedence` |
| Dom.TitlePrecedence | js/script.js:70-82 | the title is the trimmed heading; without a heading, the trimmed text of the first TOC link with the section's id; without either, "Table of Contents" |
| Dom.TitleIgnoresFlags | js/script.js:76-78 | the title depends on the TOC links' ids and texts, never on their `active` flags |
| Dom.CountSingleton | js/script.js:98-103 | flags set exactly at one position of the list count one, so exactly one section is active |
| Dom.CountMatches | js/script.js:189-195 | flags set exactly where the id matches count one when the id occurs among distinct ids, and zero otherwise |
| Localization.Resolve | js/script.js:578 | `translations[lang] || translations.en`: the dictionary the page is translated with; `UnknownIsDefault` states the fallback |
| Localization.UnknownIsDefault | js/script.js:578 | a code the table does not have resolves to exactly the `en` dictionary |
| Localization.Rendered | js/script.js:585-589 | reading text, carol text and the mission statement get markup; all other elements get plain text with the same value |
| Localization.ApplyEntry | js/script.js:582-596 | one visit of the `forEach`: the content is rewritten when the key's value is non-empty, then the `href` when the url key resolves; `TranslatedElement` states each field |
| Localization.Translate | js/script.js:581-597 | every translatable element visited in document order; `TranslateAt` and `TranslatedElement` state what it keeps and what it replaces |
| Localization.TranslateAt | js/script.js:581-597 | translation keeps the number of elements and treats each element on its own, in document order |
| Localization.TranslatedElement | js/script.js:581-597 | key, url key and classes stay; content is replaced iff the key has a non-empty value, as markup or text by the element's classes, and otherwise kept, with no fallback to another language; `href` is replaced iff a non-empty url key resolves |
| Localization.FullCoverage | js/script.js:581-590 | with a dictionary covering every key, every element shows its dictionary value |
| Localization.TranslateIdempotent | js/script.js:576-597 | applying the same dictionary twice gives the same page as applying it once |
| Preferences.SavedLanguage | js/script.js:309-312 | `localStorage.getItem` tested for truthiness: the stored code when it is non-empty; `StoredIsSaved` states the round trip with storing |
| Preferences.StoredIsSaved | js/script.js:309-312 | a non-empty code written under the storage key is read back as the saved preference; empty storage or an empty stored string reads back as none |
| Preferences.FontClasses | js/script.js:243-248 | every size class is removed and other classes are kept; `font-<size>` is added exactly when the size is not medium |
| Preferences.FontClassesLastWins | js/script.js:243-248 | after two size changes (the first not empty), the body classes are those of the second change alone |
| Preferences.LargeThenMedium | js/script.js:243-248 | large followed by medium leaves no size class on the body |
| Viewer.Viewer.CurrentId | js/script.js:187 | the `?.` id of the current section, absent when the cursor is not a position of the list; `UpdateTOCActive` states its use |
| Viewer.Viewer.constructor | js/script.js:2-7 | the page before any script runs: cursor 0, language `en`, size medium, modal and dropdown closed |
| Viewer.Viewer.InitializeSections | js/script.js:62-67 | a non-empty registry shows section 0; an empty one changes nothing |
| Viewer.Viewer.UpdateTOCLabel | js/script.js:85-91 | the label shows the current title when a current section exists, and otherwise is kept |
| Viewer.Viewer.ShowSection | js/script.js:94-117 | out of range: nothing at all changes; in range: cursor on `index`, only section `index` active, ids and headings kept, TOC flags, label and buttons re-derived, one scroll request, render contract holds |
| Viewer.Viewer.ActivateOnly | js/script.js:98-103 | every section loses `active` and only section `index` gets it back, nothing else about the sections changes |
| Viewer.Viewer.UpdateTOCActive | js/script.js:185-196 | a link is active iff its id is the current section's id; ids and texts are kept; with no current section no link is active |
| Viewer.Viewer.UpdateNavigationButtons | js/script.js:139-145 | previous is disabled iff the cursor is 0, next iff it is the last index (so next is enabled on an empty registry) |
| Viewer.Viewer.PrevClick | js/script.js:124-128 | moves back exactly one section when the cursor is above 0, and otherwise changes nothing |
| Viewer.Viewer.NextClick | js/script.js:130-134 | moves forward exactly one section when the cursor is below the last index, and otherwise changes nothing |
| Viewer.Viewer.TocToggleClick | js/script.js:154-157 | the toggle flips the dropdown open or closed |
| Viewer.Viewer.TocLinkClick | js/script.js:167-180 | an id that no section has changes nothing; otherwise the view moves to the first section with that id and the dropdown closes |
| Viewer.Viewer.SetFontSize | js/script.js:243-249 | records the size and rewrites the body classes as `FontClasses` says |
| Viewer.Viewer.FontButtonClick | js/script.js:221-229 | only the clicked size button is active, and its size is applied |
| Viewer.Viewer.UpdateLanguage | js/script.js:576-601 | the elements become `Translate` of the old elements under the resolved dictionary, the label is refreshed, and the render contract is kept |
| Viewer.Viewer.SetLanguage | js/script.js:568-574 | the language and the `lang` attribute become the requested code, storage maps the key to it, the page is translated with it, and the render contract is kept |
| Viewer.Viewer.UpdateLanguageButtons | js/script.js:346-354 | a language button is active iff its code is the given one |
| Viewer.Viewer.LanguageButtonClick | js/script.js:232-240 | only the clicked language button is active, and its code is set, stored and applied |
| Viewer.Viewer.CheckLanguagePreference | js/script.js:308-328 | a saved code is applied, its button is marked, storage is unchanged and the modal is left alone; without one, `en` is shown, nothing is stored and the modal opens |
| Viewer.Viewer.SelectLanguage | js/script.js:330-344 | the choice is applied and stored, its button is marked, and the modal closes |
| Viewer.Viewer.InitializeNavigationView | js/script.js:11-13 | after the navigation part of start-up the render contract holds, a non-empty registry is on section 0 and has one scroll request more, the sections' ids and headings and the links' ids and texts are kept, and an empty registry keeps the label |
| Viewer.Viewer.Load | js/script.js:10-19 | after start-up the render contract holds on the same sections and links (ids, headings and texts kept), storage is unchanged, the saved code or `en` is shown and its button marked when saved, the buttons are kept otherwise, the modal is open exactly on first run, and the dropdown, the font state and an empty registry's label are kept |
| Scenarios.OneSectionActive | js/script.js:98-104 | a consistent view with sections has exactly one active section |
| Scenarios.OneLinkActive | js/script.js:185-195 | with distinct link ids, exactly one TOC link is active when the current section has a link, and none otherwise |
| Scenarios.WalkThreeSections | js/script.js:124-134 | with ids cover, readingI, closing: going to 1 and pressing next twice ends on closing, with next disabled |
| Scenarios.EmptyRegistryIsInert | js/script.js:124-145 | with no sections, previous is disabled, next is enabled, and neither button moves the cursor off 0 |
| Scenarios.FirstRunThenReload | js/script.js:308-344 | first run shows `en`, stores nothing and opens the modal; choosing a code closes it; a reload shows that code with no modal |
| Scenarios.UnknownCodeRendersDefault | js/script.js:568-578 | an unknown code renders exactly what `en` renders, while the `lang` attribute and storage keep the unknown code |
| Scenarios.SampleKorean | js/script.js:581-597 | on a sample page, Korean replaces the heading and the link target, while an empty Korean value and a missing Korean key keep the earlier text |
| Scenarios.SavedKoreanPage | js/script.js:308-316 | a saved Korean preference loads the page in Korean with no modal, and the label follows the translated heading |
| Scenarios.LargeThenMediumPage | js/script.js:243-248 | on a page, large then medium leaves no size class and keeps every other class |

## Left out

- `preventIOSZoom` (`js/script.js:22-59`): suppressing touch and gesture events and timing them with `Date.now()` is event plumbing with no state the core uses.
- Modal and menu chrome: the info modal (open, close, click outside, Escape), the text-control menu toggle, and the click-outside handlers of the TOC dropdown and the menu (`js/script.js:148-164`, `199-218`, `252-291`). These are plain UI toggles. The language modal is kept as one flag.
- `document.body.style.overflow`: a scrolling side effect of the modals.
- `window.scrollTo` (`js/script.js:116`): only a count of scroll-to-top requests is kept.
- The `initializeLanguageModal` wiring (`js/script.js:294-306`): it only connects the modal buttons to `SelectLanguage`.
- The `translations` table (`js/script.js:357-566`): its text is not modelled. Dictionaries are parameters, and `Scenarios` uses a small sample with opaque strings.
- HTML rendering: `innerHTML` is not parsed. The text of markup content is taken to be the markup string itself.
- Browser `localStorage` and `document` queries: the store is a map field, and the queried element lists are sequences in document order.
- JavaScript property lookup: a key that names an inherited object property (such as `constructor`) is not treated as present.
- Missing attributes: every section and TOC link has a `data-section` id, and every button has its `data-size` or `data-lang` value.
- The TOC label element: the model assumes it exists and carries no translation key of its own.
- `state.sections` is empty until `initializeSections` runs. In the model the registry is present from the start, because no handler runs before start-up.
- Dom.SectionTitle: the TOC link is found with a CSS attribute selector built from the section id (`js/script.js:76`). The model compares ids as plain strings: it assumes an id contains no `"`, `\` or line break, for which `querySelector` would either throw (ending `showSection` after the section and TOC flags are set, before the label, the buttons and the scroll) or read a CSS escape and match a different link.
- Localization.Translate: writing `textContent` or `innerHTML` (`js/script.js:586,588`) replaces the element's descendants. The model treats translatable elements as independent records: it assumes they do not nest within one another and that no section heading sits inside one.
- Viewer.Viewer.InitializeNavigationView: the previous, next and TOC toggle buttons are used without a null check (`js/script.js:125,143,154`). The model assumes they exist, so it has no TypeError path.
- Preferences.FontClasses: the regular expression `/font-\w+/g` works on the raw class string. The model works on class tokens: it drops every token that starts with `font-` and has at least one more character. It does not model matches inside longer tokens, sizes with non-word characters, or how the leftover spaces are joined.
