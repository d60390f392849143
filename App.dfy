/**
 * The global `state` object of app.js and the handlers that change it: navigation, the
 * surah loader and the stopwatch buttons. What the loaders would fetch over the network and
 * what the clock reads are parameters.
 */
module App {
  import opened Wrappers
  import opened Numerals
  import opened Clock
  import opened Translation
  import opened Composer
  import opened Stopwatch

  /** `!state.translationsData[lang]`: nothing, or null after a failed load, is held for the language. */
  predicate Loaded(store: TranslationStore, lang: string)
  {
    lang in store && store[lang].Some?
  }

  /**
   * The store after loadSurah's `if (!translationsData[lang]) await loadTranslation(lang)`:
   * a loaded table is kept, otherwise the language gets what the loader obtained (null on failure).
   */
  function EnsureTranslation(store: TranslationStore, lang: string, fetched: Option<TranslationSet>)
    : (r: TranslationStore)
    ensures lang in r
    ensures Loaded(store, lang) ==> r == store
    ensures !Loaded(store, lang) ==> r[lang] == fetched
    ensures forall l :: l != lang ==> (l in r <==> l in store)
    ensures forall l :: l != lang && l in store ==> r[l] == store[l]
  {
    if Loaded(store, lang) then store else store[lang := fetched]
  }

  class AppState {
    var currentPage: string
    var currentSurah: Option<string>
    var currentSurahData: Option<Surah>
    var translation: string
    var translationsData: TranslationStore
    var quranData: Option<QuranData>
    var timerRunning: bool
    var timerStartTime: int
    var timerElapsed: int
    var surahsRead: nat
    var timeSpent: int
    var dayStreak: int

    /** The surah on show is the entry quran.json holds for it, and showing it was counted. */
    ghost predicate Valid()
      reads this
    {
      && (currentSurah.Some? <==> currentSurahData.Some?)
      && (currentSurah.Some? ==>
            && quranData.Some?
            && currentSurah.value in quranData.value
            && quranData.value[currentSurah.value] == currentSurahData.value
            && surahsRead >= 1)
    }

    function TimerView(): Timer
      reads this
    {
      Timer(timerRunning, timerStartTime, timerElapsed)
    }

    /** The three values the home page's statistics show. */
    function StatsDisplay(): (lines: seq<string>)
      reads this
      ensures |lines| == 3
      ensures AllDigits(lines[0]) && DecValue(lines[0]) == surahsRead
      ensures timeSpent >= 0 ==> ParseClock(lines[1]) == Some(timeSpent)
      ensures ParseInt(lines[2]) == Some(dayStreak)
    {
      NatToStringValue(surahsRead);
      ParseIntIntToString(dayStreak);
      var time := FormatTime(timeSpent);
      assert timeSpent >= 0 ==> ParseClock(time) == Some(timeSpent) by {
        if timeSpent >= 0 {
          FormatTimeRoundTrip(timeSpent);
        }
      }
      [NatToString(surahsRead), time, IntToString(dayStreak)]
    }

    /** The initial `state`: home page, nothing loaded, English, stopwatch and counters at zero. */
    constructor()
      ensures Valid()
      ensures currentPage == "home" && currentSurah == None && currentSurahData == None
      ensures translation == "en" && translationsData == map[] && quranData == None
      ensures TimerView() == Stopped
      ensures surahsRead == 0 && timeSpent == 0 && dayStreak == 0
    {
      currentPage := "home";
      currentSurah := None;
      currentSurahData := None;
      translation := "en";
      translationsData := map[];
      quranData := None;
      timerRunning := false;
      timerStartTime := 0;
      timerElapsed := 0;
      surahsRead := 0;
      timeSpent := 0;
      dayStreak := 0;
    }

    /** navigate: a request for the page already shown does nothing; otherwise the page switches. */
    method Navigate(page: string) returns (switched: bool)
      modifies this`currentPage
      ensures switched <==> old(currentPage) != page
      ensures currentPage == page
    {
      if currentPage == page {
        return false;
      }
      currentPage := page;
      return true;
    }

    /**
     * loadSurah without its markup. `fetchedQuran` is what loadQuranData obtains (None when it
     * throws) and `fetchedTranslation` what loadTranslation stores (None for its null).
     */
    method LoadSurah(surahNumber: string, fetchedQuran: Option<QuranData>, fetchedTranslation: Option<TranslationSet>)
      returns (r: Result<Composition, LoadError>)
      requires Valid()
      modifies this`quranData, this`translationsData, this`currentSurah, this`currentSurahData, this`surahsRead
      ensures Valid()
      // Stage 1: an empty selection stops before anything is loaded.
      ensures surahNumber == "" ==> r == Failure(NoSelection) && unchanged(this)
      // Stage 2: quran.json is loaded once; a failed load stops with nothing else changed.
      ensures surahNumber != "" ==> quranData == (if old(quranData).Some? then old(quranData) else fetchedQuran)
      ensures surahNumber != "" && quranData.None? ==>
        && r == Failure(QuranDataUnavailable) && translationsData == old(translationsData)
        && currentSurah == old(currentSurah) && currentSurahData == old(currentSurahData)
        && surahsRead == old(surahsRead)
      // Stage 3: the selected language's table is loaded if missing; a failed load does not stop.
      ensures surahNumber != "" && quranData.Some? ==>
        translationsData == EnsureTranslation(old(translationsData), translation, fetchedTranslation)
      // Stage 4: an unknown surah stops without touching the selection or the counter.
      ensures surahNumber != "" && quranData.Some? && surahNumber !in quranData.value ==>
        && r == Failure(SurahNotFound)
        && currentSurah == old(currentSurah) && currentSurahData == old(currentSurahData)
        && surahsRead == old(surahsRead)
      // Stage 5: a found surah is selected and counted before it is composed, so a composition failure still counts.
      ensures surahNumber != "" && quranData.Some? && surahNumber in quranData.value ==>
        && currentSurah == Some(surahNumber) && currentSurahData == Some(quranData.value[surahNumber])
        && surahsRead == old(surahsRead) + 1
        && r == Compose(surahNumber, quranData.value[surahNumber], translationsData, translation)
    {
      if surahNumber == "" {
        return Failure(NoSelection);
      }
      if quranData.None? {
        quranData := fetchedQuran;
        if quranData.None? {
          return Failure(QuranDataUnavailable);
        }
      }
      if !Loaded(translationsData, translation) {
        translationsData := translationsData[translation := fetchedTranslation];
      }
      var quran := quranData.value;
      if surahNumber !in quran {
        return Failure(SurahNotFound);
      }
      var surah := quran[surahNumber];
      currentSurah := Some(surahNumber);
      currentSurahData := Some(surah);
      surahsRead := surahsRead + 1;
      r := ComposeSurah(surahNumber, surah, translationsData, translation);
    }

    /** The start/pause button. */
    method ToggleTimer(now: int)
      modifies this`timerRunning, this`timerStartTime
      ensures TimerView() == Toggle(old(TimerView()), now)
    {
      if timerRunning {
        timerRunning := false;
      } else {
        if timerElapsed == 0 {
          timerStartTime := now;
        } else {
          timerStartTime := now - timerElapsed * 1000;
        }
        timerRunning := true;
      }
    }

    /** The one-second interval callback: update elapsed and copy it into the time-spent statistic. */
    method TickTimer(now: int)
      modifies this`timerElapsed, this`timeSpent
      ensures TimerView() == Tick(old(TimerView()), now)
      ensures timeSpent == timerElapsed
    {
      timerElapsed := (now - timerStartTime) / 1000;
      timeSpent := timerElapsed;
    }

    /** The reset button: the stopwatch stops at zero; the time-spent statistic keeps its value. */
    method ResetTimer()
      modifies this`timerRunning, this`timerElapsed, this`timerStartTime
      ensures TimerView() == Stopped
    {
      timerRunning := false;
      timerElapsed := 0;
      timerStartTime := 0;
    }

    /** The stopwatch's display text. */
    function TimerDisplay(): (text: string)
      reads this
      ensures timerElapsed >= 0 ==> ParseClock(text) == Some(timerElapsed)
      ensures timerElapsed >= 0 ==>
        var f := SplitColon(text); |f| == 3 && |f[0]| >= 2 && |f[1]| == 2 && |f[2]| == 2
    {
      if timerElapsed >= 0 then
        FormatTimerTimeShape(timerElapsed);
        FormatTimerTime(timerElapsed)
      else
        FormatTimerTime(timerElapsed)
    }
  }

  /** Loading a surah twice counts it twice: every successful lookup is one more surah read. */
  method LoadTwice(app: AppState, surahNumber: string, fetchedQuran: Option<QuranData>,
                   fetchedTranslation: Option<TranslationSet>)
    returns (first: Result<Composition, LoadError>, second: Result<Composition, LoadError>)
    requires app.Valid() && app.quranData.Some? && surahNumber != "" && surahNumber in app.quranData.value
    modifies app
    ensures app.surahsRead == old(app.surahsRead) + 2
    ensures app.currentSurah == Some(surahNumber)
    ensures first.Success? <==> second.Success?
  {
    first := app.LoadSurah(surahNumber, fetchedQuran, fetchedTranslation);
    second := app.LoadSurah(surahNumber, fetchedQuran, fetchedTranslation);
  }
}
