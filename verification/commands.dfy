/** The two on-demand commands `activate` registers in
    hasanah/extension.js: `hasanah.getAyah`, which looks up one ayah by
    surah and verse number, and `hasanah.getHijriDate`. */
module Commands {
  import opened Wrappers
  import opened TextComposer
  import Decimal

  const INVALID_INPUT: string := "Invalid input. Please enter a number."
  const NO_DATA: string := "No data returned from the Quraan API."
  /** The fallback supplication with the reason appended, after a leading space. */
  const LOOKUP_FAILED: string :=
    " " + DEFAULT_DUAA + " (invalid surah/Ayah reference or Internet problem)"
  const HIJRI_PREFIX: string := "Today in Hijri is: "

  /** The arguments `getSpecificAyah` is called with: the two strings the
      user typed, passed on unchanged. */
  datatype Request = Request(surah: string, ayah: string)

  /** What the command does: the lookup it issues, if any, and the message
      it shows. */
  datatype Response = Response(request: Option<Request>, message: string)

  /** An input box's result: `None` when the user cancelled it. */
  predicate Entered(input: Option<string>) {
    input.Some? && input.value != ""
  }

  /** A template literal renders an unset string field as `undefined`. */
  function RenderString(field: Option<string>): (s: string)
    ensures field.Some? ==> s == field.value
  {
    if field.None? then "undefined" else field.value
  }

  function RenderNumber(field: Option<int>): (s: string)
    ensures s != [] && (Decimal.IsDigit(s[|s| - 1]) || s[|s| - 1] == 'd')
  {
    if field.None? then "undefined" else Decimal.IntToString(field.value)
  }

  /** The message a truthy record renders to. The fields are read without a
      test, so a record without `surah` makes `data.surah.name` throw, which
      is `None`. */
  function RenderAyah(data: Ayah): (message: Option<string>)
    ensures message.None? <==> data.surah.None?
  {
    match data.surah
    case None => None
    case Some(surah) =>
      Some(RenderString(data.text) + " \U{1F499} " + RenderString(surah.name) +
           " (" + RenderNumber(data.numberInSurah) + ")")
  }

  /** `hasanah.getAyah`, given what the two input boxes returned and what
      `getSpecificAyah` would produce. An empty or cancelled input shows
      `INVALID_INPUT` and issues no lookup; otherwise the lookup is issued
      with both inputs, a missing record shows `NO_DATA`, a thrown error
      shows `LOOKUP_FAILED`, and a record shows its text with a blue heart.
      The four messages differ, so the message tells which case occurred. */
  function GetAyah(surahInput: Option<string>, ayahInput: Option<string>, lookup: Outcome<Ayah>)
    : (r: Response)
    ensures r.request.None? <==> !Entered(surahInput) || !Entered(ayahInput)
    ensures r.request.Some? ==> r.request.value == Request(surahInput.value, ayahInput.value)
    ensures r.message == INVALID_INPUT <==> r.request.None?
    ensures r.message == NO_DATA <==> r.request.Some? && lookup == Returned(None)
    ensures r.message == LOOKUP_FAILED <==>
      r.request.Some? && (lookup.Threw? || (lookup.Returned? && lookup.record.Some? && lookup.record.value.surah.None?))
    ensures r.request.Some? && lookup.Returned? && lookup.record.Some? && lookup.record.value.surah.Some? ==>
      Some(r.message) == RenderAyah(lookup.record.value)
  {
    if !Entered(surahInput) || !Entered(ayahInput) then
      Response(None, INVALID_INPUT)
    else
      var request := Request(surahInput.value, ayahInput.value);
      var message :=
        match lookup
        case Threw => LOOKUP_FAILED
        case Returned(None) => NO_DATA
        case Returned(Some(data)) => RenderOrFail(data);
      Response(Some(request), message)
  }

  /** The `try` block's message for a truthy record: its rendering, or
      `LOOKUP_FAILED` when rendering throws. */
  function RenderOrFail(data: Ayah): (message: string)
    ensures message != INVALID_INPUT && message != NO_DATA
    ensures message == LOOKUP_FAILED <==> data.surah.None?
    ensures data.surah.Some? ==> Some(message) == RenderAyah(data)
  {
    match RenderAyah(data)
    case None => LOOKUP_FAILED
    case Some(text) =>
      RenderedIsNoLiteral(data, text);
      text
  }

  /** A rendered ayah is none of the three fixed messages: it ends in `)`,
      unlike the first two, and its next-to-last character is a digit or the
      `d` of `undefined`, unlike the `m` of `problem)`. */
  lemma RenderedIsNoLiteral(data: Ayah, text: string)
    requires RenderAyah(data) == Some(text)
    ensures text != INVALID_INPUT && text != NO_DATA && text != LOOKUP_FAILED
  {
    var n := RenderNumber(data.numberInSurah);
    var tail := " (" + n + ")";
    assert text[|text| - 1] == ')' && text[|text| - 2] == n[|n| - 1] by {
      assert text == RenderString(data.text) + " \U{1F499} " + RenderString(data.surah.value.name) + tail;
      assert text[|text| - |tail|..] == tail;
    }
    var reason := " (invalid surah/Ayah reference or Internet problem)";
    assert LOOKUP_FAILED[|LOOKUP_FAILED| - 2] == 'm' by {
      assert LOOKUP_FAILED[|LOOKUP_FAILED| - |reason|..] == reason;
    }
  }

  /** The success message of `hasanah.getAyah`: a record with a `surah` is
      shown as its text, a blue heart, its surah's name and its verse number
      in parentheses, where an unset field renders as `undefined`. */
  lemma SuccessMessage(surahInput: Option<string>, ayahInput: Option<string>, data: Ayah)
    requires Entered(surahInput) && Entered(ayahInput) && data.surah.Some?
    ensures var message := GetAyah(surahInput, ayahInput, Returned(Some(data))).message;
      var name := data.surah.value.name;
      (data.text.Some? && name.Some? && data.numberInSurah.Some? ==>
         message == data.text.value + " \U{1F499} " + name.value +
                    " (" + Decimal.IntToString(data.numberInSurah.value) + ")") &&
      (data.text.None? ==> message[..|"undefined \U{1F499} "|] == "undefined \U{1F499} ") &&
      (data.numberInSurah.None? ==> message[|message| - |"(undefined)"|..] == "(undefined)")
  {
    var message := GetAyah(surahInput, ayahInput, Returned(Some(data))).message;
    var head := RenderString(data.text) + " \U{1F499} ";
    var tail := " (" + RenderNumber(data.numberInSurah) + ")";
    assert message == head + RenderString(data.surah.value.name) + tail;
    assert message[..|head|] == head;
    assert message[|message| - |tail|..] == tail;
  }

  /** `hasanah.getHijriDate`: a resolved date is shown after a fixed prefix
      (an unset one renders as `undefined`); a thrown error is only logged,
      so nothing is shown. */
  function GetHijriDate(date: Outcome<string>): (shown: Option<string>)
    ensures shown.None? <==> date.Threw?
    ensures shown.Some? ==> |shown.value| >= |HIJRI_PREFIX| && shown.value[..|HIJRI_PREFIX|] == HIJRI_PREFIX
    ensures date.Returned? && date.record.Some? ==>
      shown.value[|HIJRI_PREFIX|..] == date.record.value
  {
    match date
    case Threw => None
    case Returned(value) => Some(HIJRI_PREFIX + RenderString(value))
  }
}
