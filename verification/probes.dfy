/**
 * Display text for optional probe results (script.js:45, 53-55, 106-111).
 * Each probe result is passed in as a parameter. A probe that is absent or
 * falsy in JavaScript is shown as the placeholder "No disponible"; the
 * placeholder is never an empty or "undefined" string.
 */
module Probes {
  import opened Wrappers
  import opened Text

  const Unavailable: string := "No disponible"

  /**
   * A JavaScript number, given by its `String(x)` text. The text of a number is
   * never empty; the number is falsy (+0, -0 or NaN) exactly when its text is
   * "0" or "NaN".
   */
  type NumText = s: string | s != "" witness "0"

  predicate NumTruthy(n: NumText) {
    n != "0" && n != "NaN"
  }

  /** An optional string is truthy when it is present and not empty. */
  predicate StrTruthy(s: Option<string>) {
    s.Some? && s.value != ""
  }

  /**
   * `s || 'No disponible'` for a string-valued probe such as `navigator.vendor`
   * or `connection.effectiveType`.
   */
  function OrUnavailable(s: Option<string>): (r: string)
    ensures r != ""
    ensures StrTruthy(s) ==> r == s.value
    ensures !StrTruthy(s) ==> r == Unavailable
  {
    if StrTruthy(s) then s.value else Unavailable
  }

  /**
   * `navigator.language || navigator.userLanguage`: when the first is falsy the
   * second is shown as the template shows it, so an absent one reads "undefined".
   */
  function LanguageDisplay(language: Option<string>, userLanguage: Option<string>): (r: string)
    ensures StrTruthy(language) ==> r == language.value
    ensures !StrTruthy(language) && userLanguage.None? ==> r == "undefined"
    ensures !StrTruthy(language) && userLanguage.Some? ==> r == userLanguage.value
  {
    if StrTruthy(language) then language.value
    else match userLanguage
      case Some(u) => u
      case None => "undefined"
  }

  /**
   * `navigator.hardwareConcurrency || 'No disponible'`: a positive count is
   * shown as its decimal text, an absent or zero count as the placeholder.
   */
  function CoresDisplay(cores: Option<nat>): (r: string)
    ensures r != ""
    ensures r == Unavailable <==> cores.None? || cores.value == 0
    ensures cores.Some? && cores.value > 0 ==>
              IsCanonicalDecimal(r) && DecimalValue(r) == cores.value
  {
    if cores.Some? && cores.value != 0 then
      var r := NatToString(cores.value);
      NatToStringRoundTrip(cores.value);
      assert IsDigit(r[0]) && !IsDigit(Unavailable[0]);
      r
    else Unavailable
  }

  /**
   * `navigator.deviceMemory ? navigator.deviceMemory + 'GB' : 'No disponible'`:
   * a truthy amount is shown followed by the unit "GB".
   */
  function MemoryDisplay(memory: Option<NumText>): (r: string)
    ensures r != ""
    ensures memory.Some? && NumTruthy(memory.value) ==>
              |r| == |memory.value| + 2 && r[..|r| - 2] == memory.value && r[|r| - 2..] == "GB"
    ensures !(memory.Some? && NumTruthy(memory.value)) ==> r == Unavailable
  {
    if memory.Some? && NumTruthy(memory.value) then memory.value + "GB" else Unavailable
  }

  /** The Network Information API object, when the browser provides one. */
  datatype Connection = Connection(effectiveType: Option<string>, downlink: Option<NumText>)

  /**
   * `navigator.connection ? (navigator.connection.effectiveType || 'No disponible') : 'No disponible'`.
   */
  function ConnectionTypeDisplay(connection: Option<Connection>): (r: string)
    ensures r != ""
    ensures connection.Some? && StrTruthy(connection.value.effectiveType) ==>
              r == connection.value.effectiveType.value
    ensures !(connection.Some? && StrTruthy(connection.value.effectiveType)) ==> r == Unavailable
  {
    match connection
    case None => Unavailable
    case Some(c) => OrUnavailable(c.effectiveType)
  }

  /**
   * `navigator.connection ? (downlink ? downlink + ' Mbps' : 'No disponible') : 'No disponible'`:
   * a truthy downlink is shown followed by the unit " Mbps".
   */
  function DownlinkDisplay(connection: Option<Connection>): (r: string)
    ensures r != ""
    ensures connection.Some? && connection.value.downlink.Some? && NumTruthy(connection.value.downlink.value) ==>
              r == connection.value.downlink.value + " Mbps"
    ensures !(connection.Some? && connection.value.downlink.Some? && NumTruthy(connection.value.downlink.value)) ==>
              r == Unavailable
  {
    if connection.Some? then
      var d := connection.value.downlink;
      if d.Some? && NumTruthy(d.value) then d.value + " Mbps" else Unavailable
    else Unavailable
  }

  /** A shown amount of memory can be read back: the placeholder never ends in "GB". */
  lemma MemoryDisplayInvertible(m1: Option<NumText>, m2: Option<NumText>)
    requires MemoryDisplay(m1) == MemoryDisplay(m2)
    ensures (m1.Some? && NumTruthy(m1.value)) <==> (m2.Some? && NumTruthy(m2.value))
    ensures m1.Some? && NumTruthy(m1.value) ==> m1.value == m2.value
  {
    var u := Unavailable;
    assert u[|u| - 2..] != "GB" by { assert u[|u| - 1] == 'e'; }
  }

  /** A shown downlink can be read back: the placeholder never ends in " Mbps". */
  lemma DownlinkDisplayInvertible(c1: Option<Connection>, c2: Option<Connection>)
    requires DownlinkDisplay(c1) == DownlinkDisplay(c2)
    ensures DownlinkDisplay(c1) != Unavailable ==>
              c1.value.downlink.value == c2.value.downlink.value
    ensures DownlinkDisplay(c1) == Unavailable <==>
              !(c1.Some? && c1.value.downlink.Some? && NumTruthy(c1.value.downlink.value))
  {
    var u := Unavailable;
    var r := DownlinkDisplay(c1);
    if c1.Some? && c1.value.downlink.Some? && NumTruthy(c1.value.downlink.value) {
      assert r[|r| - 1] == 's' && u[|u| - 1] == 'e';
    }
    if r != Unavailable {
      var d1, d2 := c1.value.downlink.value, c2.value.downlink.value;
      assert r[..|r| - 5] == d1;
      assert r[..|r| - 5] == d2;
    }
  }
}
