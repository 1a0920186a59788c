/** The country-code search shared by the intake handler and the session
    manager: the longest prefix of the phone number, of at most four
    characters with the leading `+` counted, that names a row of the country
    table. */
module CountryLookup {
  import opened Common
  import opened Store

  /** Python's `s[:k]`: the first `k` characters, or all of `s` when it is shorter. */
  function Prefix(s: string, k: nat): (r: string)
    ensures |r| == if k <= |s| then k else |s|
    ensures r <= s
  {
    if k <= |s| then s[..k] else s
  }

  /** The longest prefix of at most `n` characters that is a key of `countries`. */
  function LongestKnownPrefix(phone: Phone, countries: map<string, Country>, n: nat): (r: Option<string>)
    ensures r.Some? ==> r.value in countries
    ensures r.Some? ==>
      exists k :: 1 <= k <= n && r.value == Prefix(phone, k)
        && forall j :: k < j <= n ==> Prefix(phone, j) !in countries
    ensures r.None? <==> forall k :: 1 <= k <= n ==> Prefix(phone, k) !in countries
  {
    if n == 0 then None
    else if Prefix(phone, n) in countries then Some(Prefix(phone, n))
    else LongestKnownPrefix(phone, countries, n - 1)
  }

  /** `get_country_code(phone)`: the longest known prefix, or `None` when no
      prefix of length 1 to 4 is a known country code. */
  function GetCountryCode(phone: Phone, countries: map<string, Country>): (r: Option<string>)
    ensures r.Some? ==> r.value in countries
    ensures r.Some? ==>
      exists k :: 1 <= k <= 4 && r.value == Prefix(phone, k)
        && forall j :: k < j <= 4 ==> Prefix(phone, j) !in countries
    ensures r.None? <==> forall k :: 1 <= k <= 4 ==> Prefix(phone, k) !in countries
    ensures forall k :: 1 <= k <= 4 && Prefix(phone, k) in countries ==> r.Some? && |Prefix(phone, k)| <= |r.value|
  {
    LongestKnownPrefix(phone, countries, 4)
  }

  /** The prefix lengths tried, in the order they are tried. */
  const CodeLengths: seq<nat> := [4, 3, 2, 1]

  lemma CodeLengthsDescend(i: int)
    requires 0 <= i < |CodeLengths|
    ensures CodeLengths[i] == 4 - i
  {
    if i == 0 {} else if i == 1 {} else if i == 2 {} else {}
  }

  /** The search loop of `get_country_code` and `_get_country_code`: the
      lengths in turn, stopping at the first known prefix. */
  method FindCountryCode(phone: Phone, countries: map<string, Country>) returns (r: Option<string>)
    ensures r == GetCountryCode(phone, countries)
  {
    var i := 0;
    while i < |CodeLengths|
      invariant 0 <= i <= |CodeLengths|
      invariant GetCountryCode(phone, countries) == LongestKnownPrefix(phone, countries, 4 - i)
    {
      CodeLengthsDescend(i);
      var code := Prefix(phone, CodeLengths[i]);
      if code in countries {
        return Some(code);
      }
      i := i + 1;
    }
    return None;
  }

  /** The example of a phone under both "+44" and "+4": the longer code wins. */
  lemma LongerCodeWins(countries: map<string, Country>)
    requires "+44" in countries && "+4" in countries && "+447" !in countries
    ensures GetCountryCode("+447911123456", countries) == Some("+44")
  {
    var r := GetCountryCode("+447911123456", countries);
    assert Prefix("+447911123456", 3) == "+44";
    assert Prefix("+447911123456", 4) == "+447";
  }
}
