/**
 * Header and status normalisation (app/utils/normalize.py): the clean-up the
 * CSV reader applies to its header row, and the total mapping of a free-form
 * status cell onto the two statuses the device registry accepts.
 */
module Normalize {
  import opened Wrappers
  import opened Text

  /** One header after clean-up: surrounding white space stripped, then every U+FEFF deleted. */
  function CleanHeader(h: string): (r: string)
    ensures Bom !in r
    ensures |r| <= |h|
  {
    RemoveAll(Strip(h), Bom)
  }

  /**
   * `normalize_headers`: a missing or empty header row gives `[]`; otherwise
   * every header is cleaned, position by position.
   */
  function NormalizeHeaders(fieldnames: Option<seq<string>>): (r: seq<string>)
    ensures fieldnames.None? ==> r == []
    ensures fieldnames.Some? ==> |r| == |fieldnames.value|
    ensures fieldnames.Some? ==> forall k :: 0 <= k < |r| ==> r[k] == CleanHeader(fieldnames.value[k])
    ensures forall k :: 0 <= k < |r| ==> Bom !in r[k]
  {
    if fieldnames.None? || fieldnames.value == [] then []
    else
      var hs := fieldnames.value;
      seq(|hs|, k requires 0 <= k < |hs| => CleanHeader(hs[k]))
  }

  /** Both falsy header rows, `None` and `[]`, normalise to `[]`. */
  lemma FalsyHeadersGiveEmpty()
    ensures NormalizeHeaders(None) == []
    ensures NormalizeHeaders(Some([])) == []
  {
  }

  /** A header with no white space at its ends and no U+FEFF is left as it is. */
  lemma CleanHeaderKeepsCleanName(h: string)
    requires h == [] || (!IsSpace(h[0]) && !IsSpace(h[|h| - 1]))
    requires Bom !in h
    ensures CleanHeader(h) == h
  {
  }

  /**
   * A name written after a byte-order mark, as a spreadsheet export writes
   * the first header, comes out as the bare name: the BOM is not white
   * space, so stripping leaves it in place and the deletion removes it.
   */
  lemma {:induction false} BomPrefixedHeaderMatches(h: string)
    requires h == [] || (!IsSpace(h[0]) && !IsSpace(h[|h| - 1]))
    requires Bom !in h
    ensures CleanHeader([Bom] + h) == h
  {
    var b := [Bom] + h;
    BomIsNotSpace();
    assert b[0] == Bom && (h != [] ==> b[|b| - 1] == h[|h| - 1]);
    assert Strip(b) == b;
    assert b[1..] == h;
    assert RemoveAll(b, Bom) == RemoveAll(h, Bom);
  }

  /**
   * Stripping happens before the BOM is deleted, so a space that follows
   * the BOM survives: the result is not guaranteed to be trimmed.
   */
  lemma StripHappensBeforeBomRemoval()
    ensures CleanHeader("\U{FEFF} DeviceId") == " DeviceId"
  {
    var h := "\U{FEFF} DeviceId";
    BomPrefixedHeaderIsStripped(h);
    assert h[1..] == " DeviceId";
    assert Bom !in " DeviceId";
  }

  /** `strip()` leaves a string that starts with the BOM and ends in a letter as it is. */
  lemma BomPrefixedHeaderIsStripped(h: string)
    requires h == "\U{FEFF} DeviceId"
    ensures Strip(h) == h
  {
    BomIsNotSpace();
  }

  // ---------------------------------------------------------------------
  // Device status
  // ---------------------------------------------------------------------

  const EnableWords: set<string> := {"enable", "enabled", "true", "1"}
  const DisableWords: set<string> := {"disable", "disabled", "false", "0"}

  /** The form a status cell is compared in: stripped, then lower-cased. */
  function Canonical(s: string): string {
    Lower(Strip(s))
  }

  lemma WordSetsDisjoint(s: string)
    ensures !(s in EnableWords && s in DisableWords)
  {
  }

  lemma EmptyIsCanonical()
    ensures Canonical("") == ""
  {
  }

  /**
   * `normalize_device_status`: always "enabled" or "disabled", and
   * "disabled" exactly when the canonical form of the input is one of the
   * disabling words; `None`, "" and every unrecognised value give "enabled".
   */
  function NormalizeDeviceStatus(status: Option<string>): (r: string)
    ensures r == "enabled" || r == "disabled"
    ensures r == "disabled" <==> status.Some? && Canonical(status.value) in DisableWords
  {
    if status.None? then "enabled"
    else if status.value == "" then
      EmptyIsCanonical();
      "enabled"
    else
      var s := Canonical(status.value);
      if s in EnableWords then
        WordSetsDisjoint(s);
        "enabled"
      else if s in DisableWords then "disabled"
      else "enabled"
  }

  /** A string made only of white space is stripped to nothing. */
  lemma {:induction false} BlankStripsToEmpty(s: string)
    requires forall k :: 0 <= k < |s| ==> IsSpace(s[k])
    ensures Strip(s) == []
  {
    var i, j := StripIsSlice(s);
  }

  /** Unrecognised values fall back to "enabled". */
  lemma UnrecognisedIsEnabled(s: string)
    requires Canonical(s) !in DisableWords
    ensures NormalizeDeviceStatus(Some(s)) == "enabled"
  {
  }

  /** White-space-only strings are unrecognised values and so give "enabled". */
  lemma {:induction false} BlankIsEnabled(s: string)
    requires forall k :: 0 <= k < |s| ==> IsSpace(s[k])
    ensures NormalizeDeviceStatus(Some(s)) == "enabled"
  {
    BlankStripsToEmpty(s);
    assert Canonical(s) == [];
  }

  /** A lower-case word with no white space at its ends is its own canonical form. */
  lemma {:induction false} CanonicalWord(w: string)
    requires w == [] || (!IsSpace(w[0]) && !IsSpace(w[|w| - 1]))
    requires forall k :: 0 <= k < |w| ==> !('A' <= w[k] <= 'Z')
    ensures Canonical(w) == w
  {
    assert Strip(w) == w;
    assert Lower(w) == w;
  }

  /** Normalising an already normalised status changes nothing. */
  lemma {:induction false} NormalizeDeviceStatusIdempotent(status: Option<string>)
    ensures NormalizeDeviceStatus(Some(NormalizeDeviceStatus(status))) == NormalizeDeviceStatus(status)
  {
    EnabledIsCanonical();
    DisabledIsCanonical();
  }

  lemma EnabledIsCanonical()
    ensures Canonical("enabled") == "enabled"
  {
    CanonicalWord("enabled");
  }

  lemma DisabledIsCanonical()
    ensures Canonical("disabled") == "disabled"
  {
    CanonicalWord("disabled");
  }

  /** Case and surrounding white space are ignored: inputs with the same canonical form agree. */
  lemma CaseAndPaddingIgnored(a: string, b: string)
    requires Canonical(a) == Canonical(b)
    ensures NormalizeDeviceStatus(Some(a)) == NormalizeDeviceStatus(Some(b))
  {
  }

  /** Every disabling word, as written, gives "disabled". */
  lemma {:induction false} DisableWordsDisable(w: string)
    requires w in DisableWords
    ensures NormalizeDeviceStatus(Some(w)) == "disabled"
  {
    CanonicalWord(w);
  }

  /** Every enabling word, as written, gives "enabled". */
  lemma EnableWordsEnable(w: string)
    requires w in EnableWords
    ensures NormalizeDeviceStatus(Some(w)) == "enabled"
  {
    CanonicalWord(w);
    WordSetsDisjoint(w);
  }

  /** Upper case and surrounding white space do not hide a disabling word. */
  lemma {:induction false} PaddedUpperCaseDisables()
    ensures NormalizeDeviceStatus(Some(" DISABLED\t")) == "disabled"
  {
    PaddedUpperCaseStrips();
    UpperCaseLowers();
    assert Canonical(" DISABLED\t") == "disabled";
  }

  lemma PaddedUpperCaseStrips()
    ensures Strip(" DISABLED\t") == "DISABLED"
  {
    assert " DISABLED\t" == " " + "DISABLED" + "\t";
    StripRemovesPadding(" ", "DISABLED", "\t");
  }

  lemma UpperCaseLowers()
    ensures Lower("DISABLED") == "disabled"
  {
  }
}
