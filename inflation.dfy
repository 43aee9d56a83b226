/** `get_inflation_rate` (tools/inflation.py): inflation guidance for a
    country code, looked up case-insensitively in a four-entry table, with a
    generic answer for every other code. */
module Inflation {
  import opened Wrappers

  /** The returned dictionary. `centralBankTarget` and `note` are `None`
      exactly when the key is absent from the dictionary. */
  datatype Guidance = Guidance(
    country: string,
    typicalRange: string,
    centralBankTarget: Option<string>,
    note: Option<string>,
    instruction: string)

  /** An entry of the `hints` table. */
  datatype Hint = Hint(country: string, typicalRange: string, centralBankTarget: string, note: string)

  const Hints: map<string, Hint> := map[
    "US" := Hint("United States", "2-4%", "2%", "Consider recent CPI data and Fed policy"),
    "UK" := Hint("United Kingdom", "2-4%", "2%", "Consider Bank of England policy"),
    "EU" := Hint("European Union", "2-3%", "2%", "Consider ECB policy"),
    "JP" := Hint("Japan", "0-2%", "2%", "Historically low inflation")
  ]

  /** The code used when the caller gives none. */
  const DefaultCountry: string := "US"

  const KnownInstruction: string :=
    "Use your knowledge of current economic conditions to determine the appropriate inflation rate"
  const UnknownInstruction: string :=
    "Use your knowledge of current economic conditions for this country"
  const UnknownRange: string := "2-4%"

  /** Upper-casing of one character as `str.upper` does it for the letters
      that can spell a table key: ASCII a-z, and the long s (U+017F), whose
      upper case is 'S'. Every other character is left as it is. */
  function UpperChar(c: char): char {
    if 'a' <= c <= 'z' then (c as int - 32) as char
    else if c == '\U{17F}' then 'S'
    else c
  }

  function Upper(s: string): (r: string)
    ensures |r| == |s|
    ensures forall i :: 0 <= i < |s| ==> r[i] == UpperChar(s[i])
  {
    if s == [] then [] else [UpperChar(s[0])] + Upper(s[1..])
  }

  /** `get_inflation_rate(country)`: a known code (after upper-casing)
      returns its table entry plus an instruction; any other code returns the
      country exactly as given, the range "2-4%" and a different instruction,
      with no target and no note. */
  function GetInflationRate(country: string): (g: Guidance)
    ensures Upper(country) in Hints ==>
      var h := Hints[Upper(country)];
      g == Guidance(h.country, h.typicalRange, Some(h.centralBankTarget), Some(h.note), KnownInstruction)
    ensures Upper(country) !in Hints ==>
      g == Guidance(country, UnknownRange, None, None, UnknownInstruction)
    ensures g.centralBankTarget.Some? <==> Upper(country) in Hints
  {
    var key := Upper(country);
    if key in Hints then
      var h := Hints[key];
      Guidance(h.country, h.typicalRange, Some(h.centralBankTarget), Some(h.note), KnownInstruction)
    else
      Guidance(country, UnknownRange, None, None, UnknownInstruction)
  }

  /** Upper-casing is idempotent. */
  lemma {:induction false} UpperIdempotent(s: string)
    ensures Upper(Upper(s)) == Upper(s)
  {
    if s != [] {
      UpperIdempotent(s[1..]);
      assert Upper(s)[1..] == Upper(s[1..]);
    }
  }

  /** Looking up the upper-cased spelling of a known code gives the same
      guidance as the code itself. */
  lemma UpperCasedCodeSameGuidance(country: string)
    requires Upper(country) in Hints
    ensures GetInflationRate(Upper(country)) == GetInflationRate(country)
  {
    UpperIdempotent(country);
  }

  /** Two codes that differ only in letter case get the same guidance when
      they name a known entry. */
  lemma KnownLookupIgnoresCase(a: string, b: string)
    requires Upper(a) == Upper(b)
    requires Upper(a) in Hints
    ensures GetInflationRate(a) == GetInflationRate(b)
  {
  }

  /** "us", "Us", "uS" and "US" all give the United States entry. */
  lemma UnitedStatesAnyCase()
    ensures GetInflationRate("us") == GetInflationRate("Us") == GetInflationRate("uS")
            == GetInflationRate(DefaultCountry)
    ensures GetInflationRate("us").country == "United States"
  {
    assert Upper("us") == "US";
    assert Upper("Us") == "US";
    assert Upper("uS") == "US";
    assert Upper("US") == "US";
  }

  /** An unknown code keeps its original spelling: "xyz" is not upper-cased. */
  lemma UnknownCodeKeepsSpelling()
    ensures GetInflationRate("xyz") == Guidance("xyz", "2-4%", None, None, UnknownInstruction)
  {
    assert Upper("xyz") == "XYZ";
  }

  /** Every answer carries a country and an instruction, and its range is one
      of the three ranges of the table; a known entry always targets 2%. */
  lemma EveryAnswerIsGuidance(country: string)
    ensures var g := GetInflationRate(country);
      && g.instruction in {KnownInstruction, UnknownInstruction}
      && g.typicalRange in {"2-4%", "2-3%", "0-2%"}
      && (g.centralBankTarget.Some? ==> g.centralBankTarget.value == "2%")
      && (Upper(country) !in Hints ==> g.country == country)
  {
  }
}
