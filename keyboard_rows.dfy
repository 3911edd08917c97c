/**
 * The split of the locale's alphabet into the keyboard's letter rows
 * (`getKeyboardRows`) and the row sizes the layout is computed from
 * (`row1ButtonCount` .. `row3ButtonCount`).
 */
module KeyboardRows {
  import opened JsSlice

  predicate IsUkrainian(locale: string) { locale == "uk" }

  /** The number of letter keys of rows 1, 2 and 3 that the layout assumes;
      the third row is never the widest, which the key width, computed from
      rows 1 and 2 alone, relies on. Ukrainian places 34 letters, other
      locales 26. */
  function RowButtonCounts(locale: string): (n: (nat, nat, nat))
    ensures n.2 < n.0 && n.2 <= n.1
    ensures n.0 + n.1 + n.2 == if IsUkrainian(locale) then 34 else 26
  {
    var uk := IsUkrainian(locale);
    (if uk then 12 else 10, if uk then 12 else 9, if uk then 10 else 7)
  }

  /** The letters a layout places: 34 for Ukrainian, 26 otherwise. */
  function LetterCount(locale: string): nat
  {
    var n := RowButtonCounts(locale);
    n.0 + n.1 + n.2
  }

  /** `getKeyboardRows()`: three slices of the alphabet and an empty fourth
      row, whose keys are added separately. */
  function GetKeyboardRows(locale: string, alphabet: seq<char>): (rows: seq<seq<char>>)
    ensures |rows| == 4 && rows[3] == []
  {
    if locale == "uk" then
      [Slice(alphabet, 0, 12), Slice(alphabet, 12, 24), Slice(alphabet, 24, 34), []]
    else
      [Slice(alphabet, 0, 10), Slice(alphabet, 10, 19), Slice(alphabet, 19, 26), []]
  }

  /** The slice bounds agree with the row sizes of the layout: row i starts
      where row i - 1 ends and is as long as its button count allows. */
  lemma RowsFollowButtonCounts(locale: string, alphabet: seq<char>)
    ensures var n := RowButtonCounts(locale);
      GetKeyboardRows(locale, alphabet)
        == [Slice(alphabet, 0, n.0), Slice(alphabet, n.0, n.0 + n.1),
            Slice(alphabet, n.0 + n.1, n.0 + n.1 + n.2), []]
  {
  }

  /** The letter rows are contiguous and do not overlap: read one after the
      other they give the alphabet up to the layout's letter count. */
  lemma RowsPartitionAlphabet(locale: string, alphabet: seq<char>)
    ensures var rows := GetKeyboardRows(locale, alphabet);
      rows[0] + rows[1] + rows[2] == alphabet[..Min(LetterCount(locale), |alphabet|)]
    ensures LetterCount(locale) == if IsUkrainian(locale) then 34 else 26
  {
  }

  /** With an alphabet long enough, each row has exactly its button count of
      letters; a longer alphabet's extra letters get no key. */
  lemma RowLengthsMatchCounts(locale: string, alphabet: seq<char>)
    requires |alphabet| >= LetterCount(locale)
    ensures var rows := GetKeyboardRows(locale, alphabet);
      var n := RowButtonCounts(locale);
      |rows[0]| == n.0 && |rows[1]| == n.1 && |rows[2]| == n.2
  {
  }

  /** Every letter key belongs to the alphabet at the position its row and
      column give. */
  lemma KeyPositions(locale: string, alphabet: seq<char>, row: nat, col: nat)
    requires row < 3
    ensures var rows := GetKeyboardRows(locale, alphabet);
      var n := RowButtonCounts(locale);
      var offset := if row == 0 then 0 else if row == 1 then n.0 else n.0 + n.1;
      col < |rows[row]| ==> offset + col < |alphabet| && rows[row][col] == alphabet[offset + col]
  {
  }
}
