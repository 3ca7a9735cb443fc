/** The pitch alphabet shared by every converter, and the default cell values
    of a blank step grid (common.py). */
module Common {

  const NoteDefault: int := -1
  const GateDefault: int := 0
  const AccentDefault: int := 0
  const TieDefault: int := 0
  const SlideDefault: int := 0

  /** One character per pitch class, C = 0 up to B = 11; lower case marks a
      flat ('d' is D-flat). */
  const NoteValueToChar: map<int, char> :=
    map[0 := 'C', 1 := 'd', 2 := 'D', 3 := 'e', 4 := 'E', 5 := 'F',
        6 := 'g', 7 := 'G', 8 := 'a', 9 := 'A', 10 := 'b', 11 := 'B']

  const CharToNoteValue: map<char, int> :=
    map['C' := 0, 'd' := 1, 'D' := 2, 'e' := 3, 'E' := 4, 'F' := 5,
        'g' := 6, 'G' := 7, 'a' := 8, 'A' := 9, 'b' := 10, 'B' := 11]

  /** The symbols in the order the pitch table lists them. */
  const Symbols: string := "CdDeEFgGaAbB"

  predicate IsPitchClass(n: int) { 0 <= n < 12 }

  /** The symbol of pitch class n. */
  function NoteChar(n: int): (c: char)
    requires IsPitchClass(n)
    ensures c in CharToNoteValue && CharToNoteValue[c] == n
    ensures c == Symbols[n]
  {
    NoteValueToChar[n]
  }

  /** The pitch class of symbol c. */
  function NoteValue(c: char): (n: int)
    requires c in CharToNoteValue
    ensures IsPitchClass(n) && NoteValueToChar[n] == c
  {
    CharToNoteValue[c]
  }

  /** The pitch table is defined exactly on 0..11, and its symbols are
      exactly the keys of the inverse table. */
  lemma TablesDomains()
    ensures forall n :: n in NoteValueToChar <==> IsPitchClass(n)
    ensures forall c :: c in CharToNoteValue <==> c in Symbols
    ensures |Symbols| == 12
  {
  }

  /** The two tables are mutually inverse bijections between 0..11 and the
      twelve symbols. */
  lemma TablesInverse()
    ensures forall n :: IsPitchClass(n) ==> CharToNoteValue[NoteValueToChar[n]] == n
    ensures forall c :: c in CharToNoteValue ==> NoteValueToChar[CharToNoteValue[c]] == c
  {
  }

  /** The twelve symbols are pairwise distinct. */
  lemma SymbolsDistinct()
    ensures forall i, j :: 0 <= i < j < 12 ==> Symbols[i] != Symbols[j]
  {
    forall i, j | 0 <= i < j < 12 ensures Symbols[i] != Symbols[j] {
      assert NoteValue(NoteChar(i)) == i && NoteValue(NoteChar(j)) == j;
    }
  }

  /** The unset-note sentinel is not a pitch class; the flag defaults are off. */
  lemma DefaultsOff()
    ensures !IsPitchClass(NoteDefault)
    ensures GateDefault == AccentDefault == TieDefault == SlideDefault == 0
  {
  }
}
