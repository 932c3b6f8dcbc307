/**
 * Spreadsheet cell values and `safe_str`, which turns any cell into a stripped
 * string and maps the textual null markers pandas and Python produce to "".
 */
module Cells {
  import opened Strings

  /**
   * A raw cell: Python's None, or any other value as the text `str(value)`
   * gives for it (pandas' NaN reads as "nan", the number 3 as "3").
   */
  datatype Cell = Missing | Text(text: string)

  /** The stripped texts that safe_str treats as "no value", compared lower-cased. */
  predicate IsNullWord(t: string) {
    Lower(t) == "nan" || Lower(t) == "none" || Lower(t) == "null"
  }

  /** safe_str: None and the null words become "", anything else its stripped text. */
  function SafeStr(v: Cell): (r: string)
    ensures r == [] || (!IsSpace(r[0]) && !IsSpace(r[|r| - 1]))
    ensures r != [] ==> v.Text? && r == Strip(v.text) && !IsNullWord(r)
  {
    match v
    case Missing => ""
    case Text(s) =>
      var t := Strip(s);
      if IsNullWord(t) then "" else t
  }

  /** safe_str yields "" exactly for None, blank text and the null words in any letter case. */
  lemma SafeStrEmpty(v: Cell)
    ensures SafeStr(v) == "" <==> v.Missing? || Strip(v.text) == "" || IsNullWord(Strip(v.text))
  {
  }

  /** Cleaning an already-cleaned value changes nothing. */
  lemma SafeStrIdempotent(v: Cell)
    ensures SafeStr(Text(SafeStr(v))) == SafeStr(v)
  {
    var r := SafeStr(v);
    if r != "" {
      StripIdempotent(v.text);
      assert Strip(r) == r;
    }
  }
}
