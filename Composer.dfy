/**
 * The composition part of loadSurah: from a surah's entry in quran.json and the loaded
 * translations it builds the units the reader shows (an optional opener, then one unit
 * per ayah) and the verse count of the header. Markup is abstracted to records.
 */
module Composer {
  import opened Wrappers
  import opened Numerals
  import opened Translation

  /** A surah's entry in quran.json: its optional `bismillah` text and its `ayahs` object. */
  datatype Surah = Surah(bismillah: Option<string>, ayahs: Option<map<nat, string>>)

  /** quran.json: surah number (as its JSON key) to entry. */
  type QuranData = map<string, Surah>

  datatype DisplayUnit =
    | Opener(text: string, translation: string)
    | Verse(number: nat, text: string, translation: string)

  datatype Composition = Composition(units: seq<DisplayUnit>, verseCount: nat)

  /** Why loadSurah stops: no selection, quran.json not loaded, no such surah, no ayahs object. */
  datatype LoadError = NoSelection | QuranDataUnavailable | SurahNotFound | AyahsMissing

  /** The opener used when the surah has no `bismillah` text of its own. */
  const DefaultOpener := "\U{0628}\U{0650}\U{0633}\U{0652}\U{0645}\U{0650} \U{0671}\U{0644}\U{0644}\U{064E}\U{0651}\U{0647}\U{0650} \U{0671}\U{0644}\U{0631}\U{064E}\U{0651}\U{062D}\U{0652}\U{0645}\U{064E}\U{0640}\U{0670}\U{0646}\U{0650} \U{0671}\U{0644}\U{0631}\U{064E}\U{0651}\U{062D}\U{0650}\U{064A}\U{0645}\U{0650}"

  const OpenerTranslation := "In the name of Allah, the Most Gracious, the Most Merciful"

  /** `surah.bismillah || DefaultOpener`: the surah's own text unless it is missing or empty. */
  function OpenerText(surah: Surah): (text: string)
    ensures text != ""
    ensures surah.bismillah.Some? && surah.bismillah.value != "" ==> text == surah.bismillah.value
    ensures surah.bismillah.None? || surah.bismillah.value == "" ==> text == DefaultOpener
  {
    if surah.bismillah.Some? && surah.bismillah.value != "" then surah.bismillah.value else DefaultOpener
  }

  /** `parseInt(surahNumber) !== 9`: every surah but At-Tawbah gets the opener; NaN differs from 9. */
  predicate HasOpener(surahKey: string)
  {
    ParseInt(surahKey) != Some(9)
  }

  function OpenerUnits(surahKey: string, surah: Surah): seq<DisplayUnit>
  {
    if HasOpener(surahKey) then [Opener(OpenerText(surah), OpenerTranslation)] else []
  }

  // ---------------------------------------------------------------------------
  // Object.entries order: integer-like keys in ascending numeric order
  // ---------------------------------------------------------------------------

  ghost function MinOf(s: set<nat>): (m: nat)
    requires s != {}
    ensures m in s && forall k :: k in s ==> m <= k
  {
    var x :| x in s;
    var others := s - {x};
    if others == {} then
      assert forall k :: k in s ==> k == x by {
        forall k | k in s ensures k == x { assert k !in others; }
      }
      x
    else
      var rest := MinOf(others);
      assert forall k :: k in s ==> k == x || k in others;
      if x <= rest then x else rest
  }

  /** The keys of s in ascending order. */
  ghost function Ascending(s: set<nat>): (keys: seq<nat>)
    ensures forall i :: 0 <= i < |keys| ==> keys[i] in s
    decreases s
  {
    if s == {} then []
    else
      var m := MinOf(s);
      [m] + Ascending(s - {m})
  }

  /** Ascending lists as many keys as s holds. */
  lemma {:induction false} AscendingLength(s: set<nat>)
    ensures |Ascending(s)| == |s|
    decreases s
  {
    if s != {} {
      var m := MinOf(s);
      AscendingLength(s - {m});
    }
  }

  /** Every key of s is listed. */
  lemma {:induction false} AscendingCovers(s: set<nat>, k: nat)
    requires k in s
    ensures k in Ascending(s)
    decreases s
  {
    var m := MinOf(s);
    if k != m {
      AscendingCovers(s - {m}, k);
    }
  }

  /** The keys are listed in strictly increasing order, so each exactly once. */
  lemma {:induction false} AscendingIncreasing(s: set<nat>)
    ensures forall i, j :: 0 <= i < j < |Ascending(s)| ==> Ascending(s)[i] < Ascending(s)[j]
    decreases s
  {
    if s != {} {
      var m := MinOf(s);
      var rest := Ascending(s - {m});
      AscendingIncreasing(s - {m});
      var keys := [m] + rest;
      assert Ascending(s) == keys;
      forall i, j | 0 <= i < j < |keys| ensures keys[i] < keys[j] {
        if i == 0 {
          assert keys[j] == rest[j - 1] && rest[j - 1] in s - {m};
        } else {
          assert keys[i] == rest[i - 1] && keys[j] == rest[j - 1];
        }
      }
    }
  }

  lemma MinUnique(s: set<nat>, k: nat)
    requires k in s && forall j :: j in s ==> k <= j
    ensures k == MinOf(s)
  {
  }

  // ---------------------------------------------------------------------------
  // Composition
  // ---------------------------------------------------------------------------

  /** The unit of one ayah: its number, its text and its translation or the reader placeholder. */
  function VerseUnit(surahKey: string, ayahs: map<nat, string>, ayah: nat,
                     store: TranslationStore, lang: string): DisplayUnit
    requires ayah in ayahs
  {
    Verse(ayah, ayahs[ayah], ReaderTranslation(store, lang, surahKey, ayah))
  }

  ghost function VerseUnits(surahKey: string, ayahs: map<nat, string>, keys: seq<nat>,
                            store: TranslationStore, lang: string): seq<DisplayUnit>
    requires forall i :: 0 <= i < |keys| ==> keys[i] in ayahs
  {
    if keys == [] then []
    else [VerseUnit(surahKey, ayahs, keys[0], store, lang)] + VerseUnits(surahKey, ayahs, keys[1..], store, lang)
  }

  /** What loadSurah renders for a surah it found: the opener, then every ayah in key order. */
  ghost function Compose(surahKey: string, surah: Surah, store: TranslationStore, lang: string)
    : Result<Composition, LoadError>
  {
    match surah.ayahs
    case None => Failure(AyahsMissing)
    case Some(ayahs) =>
      Success(Composition(
        OpenerUnits(surahKey, surah) + VerseUnits(surahKey, ayahs, Ascending(ayahs.Keys), store, lang),
        |ayahs.Keys|))
  }

  /** The loop of loadSurah: append a unit per entry of `Object.entries(surah.ayahs)`. */
  method ComposeSurah(surahKey: string, surah: Surah, store: TranslationStore, lang: string)
    returns (r: Result<Composition, LoadError>)
    ensures r == Compose(surahKey, surah, store, lang)
  {
    if surah.ayahs.None? {
      return Failure(AyahsMissing);
    }
    var ayahs := surah.ayahs.value;
    var units := OpenerUnits(surahKey, surah);
    units := AppendVerseUnits(units, surahKey, ayahs, store, lang);
    r := Success(Composition(units, |ayahs.Keys|));
  }

  /** The `forEach` over the ayahs: visit the keys smallest first, appending each one's unit. */
  method AppendVerseUnits(prefix: seq<DisplayUnit>, surahKey: string, ayahs: map<nat, string>,
                          store: TranslationStore, lang: string)
    returns (units: seq<DisplayUnit>)
    ensures units == prefix + VerseUnits(surahKey, ayahs, Ascending(ayahs.Keys), store, lang)
  {
    units := prefix;
    var remaining := ayahs.Keys;
    while remaining != {}
      invariant remaining <= ayahs.Keys
      invariant prefix + VerseUnits(surahKey, ayahs, Ascending(ayahs.Keys), store, lang)
             == units + VerseUnits(surahKey, ayahs, Ascending(remaining), store, lang)
      decreases remaining
    {
      var ayah :| ayah in remaining && forall j :: j in remaining ==> ayah <= j;
      MinUnique(remaining, ayah);
      var rest := Ascending(remaining - {ayah});
      assert Ascending(remaining) == [ayah] + rest;
      assert VerseUnits(surahKey, ayahs, [ayah] + rest, store, lang)
          == [VerseUnit(surahKey, ayahs, ayah, store, lang)] + VerseUnits(surahKey, ayahs, rest, store, lang)
      by {
        assert ([ayah] + rest)[0] == ayah && ([ayah] + rest)[1..] == rest;
      }
      units := units + [VerseUnit(surahKey, ayahs, ayah, store, lang)];
      remaining := remaining - {ayah};
    }
    assert VerseUnits(surahKey, ayahs, Ascending(remaining), store, lang) == [];
    assert units + [] == units;
  }

  // ---------------------------------------------------------------------------
  // Properties of the composition
  // ---------------------------------------------------------------------------

  /** The number of verse units in a sequence of units. */
  function VerseCount(units: seq<DisplayUnit>): (n: nat)
    ensures n <= |units|
  {
    if units == [] then 0 else (if units[0].Verse? then 1 else 0) + VerseCount(units[1..])
  }

  lemma {:induction false} VerseUnitsAt(surahKey: string, ayahs: map<nat, string>, keys: seq<nat>,
                                        store: TranslationStore, lang: string)
    requires forall i :: 0 <= i < |keys| ==> keys[i] in ayahs
    ensures |VerseUnits(surahKey, ayahs, keys, store, lang)| == |keys|
    ensures forall i :: 0 <= i < |keys| ==>
      VerseUnits(surahKey, ayahs, keys, store, lang)[i] == VerseUnit(surahKey, ayahs, keys[i], store, lang)
  {
    if keys != [] {
      VerseUnitsAt(surahKey, ayahs, keys[1..], store, lang);
    }
  }

  lemma {:induction false} VerseCountAppend(a: seq<DisplayUnit>, b: seq<DisplayUnit>)
    ensures VerseCount(a + b) == VerseCount(a) + VerseCount(b)
  {
    if a == [] {
      assert a + b == b;
    } else {
      assert (a + b)[0] == a[0] && (a + b)[1..] == a[1..] + b;
      VerseCountAppend(a[1..], b);
    }
  }

  lemma {:induction false} VerseCountAllVerses(units: seq<DisplayUnit>)
    requires forall i :: 0 <= i < |units| ==> units[i].Verse?
    ensures VerseCount(units) == |units|
  {
    if units != [] {
      VerseCountAllVerses(units[1..]);
    }
  }

  /** Composition fails exactly when the surah has no `ayahs` object. */
  lemma ComposeFails(surahKey: string, surah: Surah, store: TranslationStore, lang: string)
    ensures Compose(surahKey, surah, store, lang).Failure? <==> surah.ayahs.None?
    ensures Compose(surahKey, surah, store, lang).Failure? ==>
      Compose(surahKey, surah, store, lang).error == AyahsMissing
  {
  }

  /**
   * The first unit is an opener exactly when the surah number does not parse to 9; it carries
   * the surah's own text or the default one and the fixed English line; no other unit is an opener.
   */
  lemma ComposeOpener(surahKey: string, surah: Surah, store: TranslationStore, lang: string)
    requires surah.ayahs.Some?
    ensures var c := Compose(surahKey, surah, store, lang).value;
      && ((|c.units| > 0 && c.units[0].Opener?) <==> HasOpener(surahKey))
      && (HasOpener(surahKey) ==> c.units[0] == Opener(OpenerText(surah), OpenerTranslation))
      && (forall i :: 0 < i < |c.units| ==> c.units[i].Verse?)
  {
    var pre := OpenerUnits(surahKey, surah);
    OpenerLength(surahKey, surah);
    VersesAfterContent(pre, surahKey, surah.ayahs.value, store, lang);
    if HasOpener(surahKey) {
      assert Compose(surahKey, surah, store, lang).value.units[0] == pre[0];
    }
  }

  /** The verse units after any prefix `pre`: unit `|pre| + i` is the unit of the i-th smallest key. */
  lemma {:induction false} VersesAfter(pre: seq<DisplayUnit>, surahKey: string, ayahs: map<nat, string>,
                                       store: TranslationStore, lang: string)
    ensures var keys := Ascending(ayahs.Keys);
      var units := pre + VerseUnits(surahKey, ayahs, keys, store, lang);
      && |keys| == |ayahs|
      && |units| == |pre| + |keys|
      && forall i :: |pre| <= i < |units| ==> units[i] == VerseUnit(surahKey, ayahs, keys[i - |pre|], store, lang)
  {
    var keys := Ascending(ayahs.Keys);
    AscendingLength(ayahs.Keys);
    VerseUnitsAt(surahKey, ayahs, keys, store, lang);
    var vs := VerseUnits(surahKey, ayahs, keys, store, lang);
    var units := pre + vs;
    forall i | |pre| <= i < |units|
      ensures units[i] == VerseUnit(surahKey, ayahs, keys[i - |pre|], store, lang)
    {
      assert units[i] == vs[i - |pre|];
    }
  }

  /** The verse units after any prefix carry every key once, in ascending order, with its text and translation. */
  lemma {:induction false} VersesAfterContent(pre: seq<DisplayUnit>, surahKey: string, ayahs: map<nat, string>,
                                              store: TranslationStore, lang: string)
    ensures var units := pre + VerseUnits(surahKey, ayahs, Ascending(ayahs.Keys), store, lang);
      && |units| == |pre| + |ayahs|
      && (forall i :: |pre| <= i < |units| ==>
            && units[i].Verse? && units[i].number in ayahs
            && units[i].text == ayahs[units[i].number]
            && units[i].translation == ReaderTranslation(store, lang, surahKey, units[i].number))
      && (forall i, j :: |pre| <= i < j < |units| ==> units[i].number < units[j].number)
      && (forall k :: k in ayahs ==> exists i :: |pre| <= i < |units| && units[i].number == k)
  {
    var keys := Ascending(ayahs.Keys);
    var units := pre + VerseUnits(surahKey, ayahs, keys, store, lang);
    VersesAfter(pre, surahKey, ayahs, store, lang);
    AscendingIncreasing(ayahs.Keys);
    forall i, j | |pre| <= i < j < |units| ensures units[i].number < units[j].number {
      assert units[i].number == keys[i - |pre|] && units[j].number == keys[j - |pre|];
    }
    forall k | k in ayahs
      ensures exists i :: |pre| <= i < |units| && units[i].number == k
    {
      AscendingCovers(ayahs.Keys, k);
      var p :| 0 <= p < |keys| && keys[p] == k;
      assert units[|pre| + p] == VerseUnit(surahKey, ayahs, keys[p], store, lang);
    }
  }

  /** The opener part of a composition has one unit with an opener and none without. */
  lemma OpenerLength(surahKey: string, surah: Surah)
    ensures |OpenerUnits(surahKey, surah)| == if HasOpener(surahKey) then 1 else 0
  {
  }

  /**
   * After the optional opener there is one verse unit per ayah key, each with that key's text
   * and its translation (or the reader placeholder), in strictly ascending key order, so that
   * every key is shown exactly once.
   */
  lemma ComposeVerses(surahKey: string, surah: Surah, store: TranslationStore, lang: string)
    requires surah.ayahs.Some?
    ensures var c := Compose(surahKey, surah, store, lang).value;
      var ayahs := surah.ayahs.value;
      var first := if HasOpener(surahKey) then 1 else 0;
      && |c.units| == first + |ayahs|
      && (forall i :: first <= i < |c.units| ==>
            && c.units[i].Verse? && c.units[i].number in ayahs
            && c.units[i].text == ayahs[c.units[i].number]
            && c.units[i].translation == ReaderTranslation(store, lang, surahKey, c.units[i].number))
      && (forall i, j :: first <= i < j < |c.units| ==> c.units[i].number < c.units[j].number)
      && (forall k :: k in ayahs ==> exists i :: first <= i < |c.units| && c.units[i].number == k)
  {
    OpenerLength(surahKey, surah);
    VersesAfterContent(OpenerUnits(surahKey, surah), surahKey, surah.ayahs.value, store, lang);
  }

  /** The reported verse count is the number of ayah keys and equals the verse units; the opener is not counted. */
  lemma ComposeCount(surahKey: string, surah: Surah, store: TranslationStore, lang: string)
    requires surah.ayahs.Some?
    ensures var c := Compose(surahKey, surah, store, lang).value;
      c.verseCount == |surah.ayahs.value| && c.verseCount == VerseCount(c.units)
  {
    var ayahs := surah.ayahs.value;
    var keys := Ascending(ayahs.Keys);
    AscendingLength(ayahs.Keys);
    VerseUnitsAt(surahKey, ayahs, keys, store, lang);
    var vs := VerseUnits(surahKey, ayahs, keys, store, lang);
    VerseCountAppend(OpenerUnits(surahKey, surah), vs);
    VerseCountAllVerses(vs);
    assert VerseCount(OpenerUnits(surahKey, surah)) == 0;
  }

  /** For a surah key written as toString writes a number, the opener is shown exactly when that number is not 9. */
  lemma CanonicalKeyOpener(n: nat)
    ensures HasOpener(NatToString(n)) <==> n != 9
  {
    ParseIntNatToString(n);
  }
}
