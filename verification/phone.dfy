/** Composing a stored phone number from a dial code and local digits, and taking it apart
    again, as the two contact modals do. */
module Phone {
  import opened Wrappers
  import Strings
  import Countries

  /** `country?.dial_code || ''` for `country` the table entry with the code (found by
      `Countries.Lookup`, which `Countries.FindLookup` equates with `countries.find`); every
      listed dial code is non-empty, so only an unknown code gives `''`. */
  function DialOf(code: string): (d: string)
    ensures Countries.Lookup(code).Some? ==> d == Countries.Lookup(code).value.dialCode
    ensures Countries.Lookup(code).None? ==> d == ""
  {
    match Countries.Lookup(code)
    case None => ""
    case Some(c) => c.dialCode
  }

  /** `` local ? `${dial}${local}` : '' ``. */
  function Compose(dial: string, local: string): (r: string)
    ensures local == "" ==> r == ""
    ensures local != "" ==> Strings.IsPrefix(dial, r) && r[|dial|..] == local
  {
    if local == "" then "" else dial + local
  }

  /** The steps both copies of `getLocalNumber` share: `''` for an empty number, otherwise the
      number with the first occurrence of `dial` removed, then trimmed. */
  function Strip(dial: string, full: string): (r: string)
    ensures full == "" ==> r == ""
    ensures Strings.Trimmed(r)
    ensures full != "" && Strings.IndexOf(full, dial).None? ==> r == Strings.Trim(full)
    ensures full != "" && Strings.IndexOf(full, dial).Some? ==>
      var i := Strings.IndexOf(full, dial).value;
      r == Strings.Trim(full[..i] + full[i + |dial|..])
  {
    if full == "" then ""
    else
      var cut := Strings.ReplaceFirst(full, dial, "");
      assert Strings.IndexOf(full, dial).Some? ==>
        var i := Strings.IndexOf(full, dial).value;
        cut == full[..i] + full[i + |dial|..];
      Strings.Trim(cut)
  }

  /** `getLocalNumber` of src/components/ContactModal.jsx, which falls back to removing `''`
      when the form's country is not in the table. */
  function LocalNumber(code: string, full: string): (r: string)
    ensures full == "" ==> r == ""
    ensures Strings.Trimmed(r)
  {
    Strip(DialOf(code), full)
  }

  /** `getLocalNumber` of the modal inside src/pages/Contacts.jsx: no fallback, so a non-empty
      number needs a table country. */
  function InlineLocalNumber(code: string, full: string): (r: string)
    requires full == "" || Countries.IsCode(code)
    ensures full == "" ==> r == ""
    ensures Strings.Trimmed(r)
  {
    if full == "" then "" else Strip(Countries.Lookup(code).value.dialCode, full)
  }

  /** Removing the empty pattern changes nothing: `s.replace('', '')` is `s`. */
  lemma ReplaceEmpty(s: string)
    ensures Strings.ReplaceFirst(s, "", "") == s
  {
    assert Strings.OccursAt(s, "", 0);
    assert s[..0] + "" + s[0..] == s;
  }

  /** Stripping the empty dial code only trims. */
  lemma StripEmpty(full: string)
    ensures Strip("", full) == Strings.Trim(full)
  {
    if full != "" {
      ReplaceEmpty(full);
    } else {
      Strings.TrimTrimmed(full);
    }
  }

  /** With an unknown country the fallback removes nothing and only trims. */
  lemma UnknownCountryTrims(code: string, full: string)
    requires !Countries.IsCode(code)
    ensures LocalNumber(code, full) == Strings.Trim(full)
  {
    StripEmpty(full);
  }

  /** For a table country both copies of `getLocalNumber` agree. */
  lemma InlineAgrees(code: string, full: string)
    requires Countries.IsCode(code)
    ensures InlineLocalNumber(code, full) == LocalNumber(code, full)
  {
  }

  /** Stripping a dial code from a number composed with it gives back the local digits. */
  lemma StripCompose(dial: string, digits: string)
    requires Strings.AllDigits(digits)
    ensures Strip(dial, Compose(dial, digits)) == digits
  {
    if digits != "" {
      Strings.ReplacePrefix(dial, digits);
      Strings.DigitsTrimmed(digits);
    }
  }

  /** Taking apart a composed number gives back the local digits, for any country code. */
  lemma RoundTrip(code: string, digits: string)
    requires Strings.AllDigits(digits)
    ensures LocalNumber(code, Compose(DialOf(code), digits)) == digits
  {
    StripCompose(DialOf(code), digits);
  }

  /** The inline copy inverts composition for a table country. */
  lemma InlineRoundTrip(code: string, digits: string)
    requires Countries.IsCode(code) && Strings.AllDigits(digits)
    ensures InlineLocalNumber(code, Compose(DialOf(code), digits)) == digits
  {
    StripCompose(DialOf(code), digits);
  }
}
