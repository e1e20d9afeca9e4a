/** `getText` and `DEFAULT_DUAA` of hasanah/extension.js: the text one tick
    of the rotation shows, composed from what the random-hadith or the
    random-ayah lookup produced, with every failure folded into one fixed
    supplication. */
module TextComposer {
  import opened Wrappers
  import Decimal

  /** The fallback supplication shown whenever no text could be composed. */
  const DEFAULT_DUAA: string := "اللهم احفظ السودان واهله ❤️ سبحان الله وبحمده "

  /** What an awaited remote lookup does: it throws, or it resolves to a
      record that may be missing (`null`/`undefined`). */
  datatype Outcome<+T> = Threw | Returned(record: Option<T>)

  /** A random hadith as the hadith lookup returns it; a field that is absent
      or not set is `None`. */
  datatype Hadith = Hadith(arab: Option<string>, book: Option<string>)

  datatype Surah = Surah(name: Option<string>)

  /** A random ayah as the Quraan lookup returns it. */
  datatype Ayah = Ayah(text: Option<string>, surah: Option<Surah>, numberInSurah: Option<int>)

  /** What the two random lookups would produce on one tick; `getText`
      awaits only the one its mode selects. */
  datatype Lookups = Lookups(hadith: Outcome<Hadith>, ayah: Outcome<Ayah>)

  /** JavaScript truthiness of a string field: present and not empty. */
  predicate TruthyString(s: Option<string>) {
    s.Some? && s.value != ""
  }

  /** JavaScript truthiness of a numeric field: present and not zero. */
  predicate TruthyNumber(n: Option<int>) {
    n.Some? && n.value != 0
  }

  /** The hadith lookup produced a record with a truthy narration and book. */
  predicate HadithComplete(o: Outcome<Hadith>) {
    o.Returned? && o.record.Some? &&
    TruthyString(o.record.value.arab) && TruthyString(o.record.value.book)
  }

  /** The ayah lookup produced a record with a truthy text, surah, surah
      name and verse number. */
  predicate AyahComplete(o: Outcome<Ayah>) {
    o.Returned? && o.record.Some? &&
    TruthyString(o.record.value.text) &&
    o.record.value.surah.Some? && TruthyString(o.record.value.surah.value.name) &&
    TruthyNumber(o.record.value.numberInSurah)
  }

  /** The record the tick's mode selects is complete. */
  predicate Complete(showHadith: bool, lookups: Lookups) {
    if showHadith then HadithComplete(lookups.hadith) else AyahComplete(lookups.ayah)
  }

  /** The `try` block of `getText` up to its `if (!text)` test: `Threw` when
      the awaited lookup threw, otherwise the value of `text` (`None` while
      it is still unassigned). */
  function ComposeAttempt(showHadith: bool, lookups: Lookups): (attempt: Outcome<string>)
  {
    if showHadith then
      match lookups.hadith
      case Threw => Threw
      case Returned(hadith) =>
        Returned(
          if hadith.Some? && TruthyString(hadith.value.arab) && TruthyString(hadith.value.book)
          then Some(hadith.value.arab.value + " \U{1F49A} book (" + hadith.value.book.value + ")")
          else None)
    else
      match lookups.ayah
      case Threw => Threw
      case Returned(ayah) =>
        Returned(
          if ayah.Some? && TruthyString(ayah.value.text) && ayah.value.surah.Some? &&
             TruthyString(ayah.value.surah.value.name) && TruthyNumber(ayah.value.numberInSurah)
          then Some(ayah.value.text.value + " \U{2764}\U{FE0F} " + ayah.value.surah.value.name.value +
                    " (" + Decimal.IntToString(ayah.value.numberInSurah.value) + ")")
          else None)
  }

  /** `getText(showHadith)`: a falsy `text` throws, and the `catch` turns that
      and every exception of the lookup into `DEFAULT_DUAA`. Total: it never
      throws and never yields an empty string, and it yields the fallback
      exactly when the selected record is incomplete. */
  function GetText(showHadith: bool, lookups: Lookups): (r: string)
    ensures r != []
    ensures r == DEFAULT_DUAA <==> !Complete(showHadith, lookups)
  {
    match ComposeAttempt(showHadith, lookups)
    case Threw => DEFAULT_DUAA
    case Returned(text) =>
      if text.None? || text.value == "" then DEFAULT_DUAA
      else
        assert text.value[|text.value| - 1] == ')' != DEFAULT_DUAA[|DEFAULT_DUAA| - 1];
        text.value
  }

  /** A complete hadith shows its narration, a green heart and its book. */
  lemma HadithMessage(lookups: Lookups)
    requires HadithComplete(lookups.hadith)
    ensures var h := lookups.hadith.record.value;
      GetText(true, lookups) == h.arab.value + " \U{1F49A} book (" + h.book.value + ")"
  {
  }

  /** A complete ayah shows its text, a red heart, its surah's name and its
      verse number in decimal. */
  lemma AyahMessage(lookups: Lookups)
    requires AyahComplete(lookups.ayah)
    ensures var a := lookups.ayah.record.value;
      GetText(false, lookups) ==
        a.text.value + " \U{2764}\U{FE0F} " + a.surah.value.name.value +
        " (" + Decimal.IntToString(a.numberInSurah.value) + ")"
  {
  }
}
