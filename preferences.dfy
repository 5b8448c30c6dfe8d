/** The durable language preference and the font-size body class. */
module Preferences {
  import opened Wrappers

  /** The storage key under which the chosen language is kept. */
  const StorageKey := "voxSacraLanguage"

  /** The unmarked font size: it adds no body class. */
  const DefaultFontSize := "medium"

  /** `localStorage.getItem(StorageKey)` read as a condition: a missing
      entry and an empty string both mean "no preference". */
  function SavedLanguage(store: map<string, string>): Option<string>
  {
    if StorageKey in store && store[StorageKey] != "" then Some(store[StorageKey]) else None
  }

  /** Storing a non-empty code is read back as that code; empty storage and
      a stored empty string read back as no preference. */
  lemma StoredIsSaved(store: map<string, string>, code: string)
    ensures code != "" ==> SavedLanguage(store[StorageKey := code]) == Some(code)
    ensures SavedLanguage(store[StorageKey := ""]) == None
    ensures SavedLanguage(map[]) == None
  {
  }

  /** A body class the size rewrite removes: `font-` followed by at least one character. */
  predicate IsFontClass(c: string)
  {
    |c| > 5 && c[..5] == "font-"
  }

  function FontClass(size: string): string
  {
    "font-" + size
  }

  /** The body classes after `setFontSize(size)`: every size class removed,
      then `font-<size>` added unless the size is the default. */
  function FontClasses(classes: set<string>, size: string): (r: set<string>)
    ensures forall c :: !IsFontClass(c) ==> (c in r <==> c in classes || (c == FontClass(size) && size != DefaultFontSize))
    ensures forall c :: c in r && IsFontClass(c) ==> c == FontClass(size) && size != DefaultFontSize
    ensures size != DefaultFontSize ==> FontClass(size) in r
  {
    (set c | c in classes && !IsFontClass(c)) + (if size == DefaultFontSize then {} else {FontClass(size)})
  }

  /** Only the last size chosen matters. An empty size is the exception: it
      adds the bare class `font-`, which no later rewrite removes. */
  lemma FontClassesLastWins(classes: set<string>, a: string, b: string)
    requires a != ""
    ensures FontClasses(FontClasses(classes, a), b) == FontClasses(classes, b)
  {
  }

  /** Choosing large and then medium leaves no size class on the body. */
  lemma LargeThenMedium(classes: set<string>)
    ensures forall c :: c in FontClasses(FontClasses(classes, "large"), "medium") ==> !IsFontClass(c)
  {
  }
}
