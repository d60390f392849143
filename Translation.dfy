/**
 * Translation lookup with a placeholder: the reader (loadSurah) and the daily verse
 * (fetchRandomVerse) both read `translationsData[lang][surah].ayahs[ayah]`, guarding
 * each level with a truthiness test and falling back to a fixed text.
 */
module Translation {
  import opened Wrappers

  /** One surah's entry in a translation file: its `ayahs` object, possibly missing. */
  datatype TranslatedSurah = TranslatedSurah(ayahs: Option<map<nat, string>>)

  /** A loaded translation file: surah number (as its JSON key) to entry. */
  type TranslationSet = map<string, TranslatedSurah>

  /**
   * `state.translationsData`: language code to the loaded set; a language that is not
   * a key is undefined, and None is the null stored after a failed load.
   */
  type TranslationStore = map<string, Option<TranslationSet>>

  const ReaderPlaceholder := "No translation available"
  const DailyPlaceholder := "Translation not available"

  /**
   * `t` is the stored translation of the ayah: the set for the language is loaded, it has
   * an entry for the surah, the entry has its ayahs, and the ayah maps to the non-empty `t`.
   */
  ghost predicate HasTranslation(store: TranslationStore, lang: string, surahKey: string, ayah: nat, t: string)
  {
    && lang in store && store[lang].Some?
    && surahKey in store[lang].value
    && store[lang].value[surahKey].ayahs.Some?
    && ayah in store[lang].value[surahKey].ayahs.value
    && store[lang].value[surahKey].ayahs.value[ayah] == t
    && t != ""
  }

  /** The guarded lookup of app.js: every missing level, and an empty text, give the placeholder. */
  function LookupTranslation(store: TranslationStore, lang: string, surahKey: string, ayah: nat,
                             placeholder: string): (text: string)
    ensures forall t :: HasTranslation(store, lang, surahKey, ayah, t) ==> text == t
    ensures text == placeholder || HasTranslation(store, lang, surahKey, ayah, text)
  {
    if lang in store && store[lang].Some? && surahKey in store[lang].value
       && store[lang].value[surahKey].ayahs.Some?
    then
      var ayahs := store[lang].value[surahKey].ayahs.value;
      if ayah in ayahs && ayahs[ayah] != "" then ayahs[ayah] else placeholder
    else placeholder
  }

  /** The text shown under a verse in the reader. */
  function ReaderTranslation(store: TranslationStore, lang: string, surahKey: string, ayah: nat): (text: string)
    ensures text == ReaderPlaceholder || HasTranslation(store, lang, surahKey, ayah, text)
    ensures forall t :: HasTranslation(store, lang, surahKey, ayah, t) ==> text == t
  {
    LookupTranslation(store, lang, surahKey, ayah, ReaderPlaceholder)
  }

  /** The text shown under the daily verse. */
  function DailyTranslation(store: TranslationStore, lang: string, surahKey: string, ayah: nat): (text: string)
    ensures text == DailyPlaceholder || HasTranslation(store, lang, surahKey, ayah, text)
    ensures forall t :: HasTranslation(store, lang, surahKey, ayah, t) ==> text == t
  {
    LookupTranslation(store, lang, surahKey, ayah, DailyPlaceholder)
  }

  /**
   * The two call sites agree exactly when a translation is stored; otherwise each shows its
   * own placeholder, and the placeholders differ.
   */
  lemma TwinLookups(store: TranslationStore, lang: string, surahKey: string, ayah: nat)
    ensures (ReaderTranslation(store, lang, surahKey, ayah) == DailyTranslation(store, lang, surahKey, ayah))
        <==> exists t :: HasTranslation(store, lang, surahKey, ayah, t)
    ensures (forall t :: !HasTranslation(store, lang, surahKey, ayah, t)) ==>
        ReaderTranslation(store, lang, surahKey, ayah) == ReaderPlaceholder
        && DailyTranslation(store, lang, surahKey, ayah) == DailyPlaceholder
  {
    var r := ReaderTranslation(store, lang, surahKey, ayah);
    var d := DailyTranslation(store, lang, surahKey, ayah);
    if r == d {
      if r == ReaderPlaceholder {
        assert d != DailyPlaceholder;
        assert HasTranslation(store, lang, surahKey, ayah, d);
      } else {
        assert HasTranslation(store, lang, surahKey, ayah, r);
      }
    }
  }

  /** A language whose load failed (null) or that was never loaded shows the placeholder everywhere. */
  lemma UnloadedLanguage(store: TranslationStore, lang: string, surahKey: string, ayah: nat, placeholder: string)
    requires lang !in store || store[lang].None?
    ensures LookupTranslation(store, lang, surahKey, ayah, placeholder) == placeholder
  {
  }
}
