/** ABL3_to_pattern.py: the two ABL3 text layouts (already split into
    rows) become canonical rows.  The short layout spells notes as text
    such as "c#3"; the long layout gives note numbers and octave counts. */
module Abl3 {
  import opened Common
  import opened Pattern

  /** str.upper on ASCII letters. */
  function Upper(c: char): char
  {
    if 'a' <= c <= 'z' then (c as int - 32) as char else c
  }

  /** list.index: the first position of c in s. */
  function IndexOf(s: string, c: char): (i: nat)
    requires c in s
    ensures i < |s| && s[i] == c && c !in s[..i]
  {
    if s[0] == c then 0
    else
      assert c in s[1..] by {
        var j :| 0 <= j < |s| && s[j] == c;
        assert s[1..][j - 1] == c;
      }
      var i := 1 + IndexOf(s[1..], c);
      assert s[..i] == [s[0]] + s[1..][..i - 1];
      i
  }

  /** convert_abl3_note_to_char: "x-" is the letter x in upper case, "x#"
      is the alphabet symbol after upper(x); any other second character
      gives no symbol at all. */
  function Abl3NoteToChar(note: string): (r: Result<Option<char>>)
    ensures r == Err(NoteTextTooShort) <==> |note| < 2
    ensures r == Ok(None) <==> |note| >= 2 && note[1] != '-' && note[1] != '#'
    ensures |note| >= 2 && note[1] == '-' ==> r == Ok(Some(Upper(note[0])))
    ensures r.Ok? && r.value.Some? && note[1] == '#' ==> r.value.value in Symbols
  {
    if |note| < 2 then Err(NoteTextTooShort)
    else if note[1] == '-' then Ok(Some(Upper(note[0])))
    else if note[1] == '#' then
      var u := Upper(note[0]);
      if u !in Symbols then Err(UnknownNoteLetter)
      else
        var i := IndexOf(Symbols, u);
        if i + 1 >= |Symbols| then Err(SharpPastB) else Ok(Some(Symbols[i + 1]))
    else Ok(None)
  }

  /** The pitch class of a natural note letter, written independently of
      the symbol alphabet. */
  function NaturalValue(x: char): int
  {
    match Upper(x)
    case 'C' => 0 case 'D' => 2 case 'E' => 4 case 'F' => 5
    case 'G' => 7 case 'A' => 9 case 'B' => 11
    case _ => -1
  }

  predicate IsNoteLetter(x: char)
  {
    Upper(x) in "CDEFGAB"
  }

  /** The alphabet has no repeated symbol, so a symbol's first position is
      its only one. */
  lemma IndexAt(u: char, k: nat)
    requires k < |Symbols| && Symbols[k] == u
    ensures IndexOf(Symbols, u) == k
  {
    var i := IndexOf(Symbols, u);
    SymbolsDistinct();
  }

  /** Each natural letter sits in the alphabet at its own pitch class. */
  lemma LetterAt(x: char)
    requires IsNoteLetter(x)
    ensures 0 <= NaturalValue(x) < |Symbols| && Symbols[NaturalValue(x)] == Upper(x)
  {
    var u := Upper(x);
    assert u in "CDEFGAB";
    assert u == 'C' || u == 'D' || u == 'E' || u == 'F' || u == 'G' || u == 'A' || u == 'B';
  }

  /** The symbol at position k of the alphabet has value k. */
  lemma SymbolValue(k: int)
    requires 0 <= k < |Symbols|
    ensures Symbols[k] in CharToNoteValue && NoteValue(Symbols[k]) == k
  {
    var c := NoteChar(k);
  }

  /** The position of each natural letter in the symbol alphabet. */
  lemma NaturalIndex(x: char)
    requires IsNoteLetter(x)
    ensures Upper(x) in Symbols
    ensures var i := IndexOf(Symbols, Upper(x));
      Symbols[i] in CharToNoteValue && NoteValue(Symbols[i]) == NaturalValue(x)
      && (Upper(x) == 'B' <==> i + 1 >= |Symbols|)
      && (i + 1 < |Symbols| ==> Symbols[i + 1] in CharToNoteValue
                                && NoteValue(Symbols[i + 1]) == NaturalValue(x) + 1)
  {
    var u := Upper(x);
    var k := NaturalValue(x);
    LetterAt(x);
    IndexAt(u, k);
    IndexAt('B', 11);
    SymbolValue(k);
    if k < 11 {
      SymbolValue(k + 1);
    }
  }

  /** A natural letter spelled "x-" gives the symbol of its own pitch class. */
  lemma NaturalNoteMeaning(x: char, rest: string)
    requires IsNoteLetter(x)
    ensures var r := Abl3NoteToChar([x, '-'] + rest);
      r.Ok? && r.value.Some? && r.value.value in CharToNoteValue
      && NoteValue(r.value.value) == NaturalValue(x)
  {
    var note := [x, '-'] + rest;
    assert |note| >= 2 && note[0] == x && note[1] == '-';
    var u := Upper(x);
    assert Abl3NoteToChar(note) == Ok(Some(u));
    NaturalIndex(x);
    assert Symbols[IndexOf(Symbols, u)] == u;
  }

  /** "x#" gives the symbol one semitone above x, except "b#", which runs
      off the end of the alphabet. */
  lemma SharpNoteMeaning(x: char, rest: string)
    requires IsNoteLetter(x)
    ensures var r := Abl3NoteToChar([x, '#'] + rest);
      if Upper(x) == 'B' then r == Err(SharpPastB)
      else (r.Ok? && r.value.Some? && r.value.value in CharToNoteValue
            && NoteValue(r.value.value) == NaturalValue(x) + 1)
  {
    var note := [x, '#'] + rest;
    assert |note| >= 2 && note[0] == x && note[1] == '#';
    NaturalIndex(x);
    SharpOfSymbol(note);
  }

  /** A sharp on a letter of the alphabet names the next symbol, or fails
      on the last one. */
  lemma SharpOfSymbol(note: string)
    requires |note| >= 2 && note[1] == '#' && Upper(note[0]) in Symbols
    ensures var i := IndexOf(Symbols, Upper(note[0]));
      Abl3NoteToChar(note) == if i + 1 >= |Symbols| then Err(SharpPastB) else Ok(Some(Symbols[i + 1]))
  {
  }

  /** The outcomes of convert_abl3_note_to_char: text shorter than two
      characters fails, a sharp fails exactly on a letter outside C D E F G
      A B or on B itself, and a second character other than '-' or '#'
      names nothing. */
  lemma NoteToCharOutcomes(note: string)
    ensures |note| < 2 <==> Abl3NoteToChar(note) == Err(NoteTextTooShort)
    ensures |note| >= 2 && note[1] == '#' ==>
      (Abl3NoteToChar(note).Err? <==> !IsNoteLetter(note[0]) || Upper(note[0]) == 'B')
    ensures |note| >= 2 && note[1] == '-' ==> Abl3NoteToChar(note) == Ok(Some(Upper(note[0])))
    ensures |note| >= 2 && note[1] != '-' && note[1] != '#' ==> Abl3NoteToChar(note) == Ok(None)
  {
    if |note| >= 2 && note[1] == '#' {
      var u := Upper(note[0]);
      if IsNoteLetter(note[0]) {
        NaturalIndex(note[0]);
      } else {
        assert !('a' <= u <= 'z');
        assert u !in Symbols;
      }
    }
  }

  // ---------------------------------------------------------------------
  // Short layout: note text, gate, slide, accent

  datatype ShortRow = ShortRow(note: string, gate: int, slide: int, accent: int)

  /** int(x[2]): the octave digit of a note text. */
  function OctaveOf(note: string): (r: Result<int>)
    ensures r.Ok? ==> 0 <= r.value <= 9
    ensures r.Ok? <==> |note| >= 3 && note[2] in "0123456789"
    ensures r.Ok? ==> "0123456789"[r.value] == note[2]
    ensures |note| < 3 ==> r == Err(NoteTextTooShort)
  {
    if |note| < 3 then Err(NoteTextTooShort)
    else if '0' <= note[2] <= '9' then Ok(note[2] as int - '0' as int)
    else Err(BadOctaveDigit)
  }

  /** The octave digits of all rows, or the first failure. */
  function Octaves(rows: seq<ShortRow>): (r: Result<seq<int>>)
    ensures r.Ok? ==> |r.value| == |rows|
    ensures r.Ok? ==> forall i :: 0 <= i < |rows| ==> OctaveOf(rows[i].note) == Ok(r.value[i])
    ensures r.Err? ==> exists i :: 0 <= i < |rows| && OctaveOf(rows[i].note).Err?
  {
    if rows == [] then Ok([])
    else match OctaveOf(rows[0].note)
      case Err(e) => Err(e)
      case Ok(d) =>
        match Octaves(rows[1..])
        case Err(e) => Err(e)
        case Ok(ds) => Ok([d] + ds)
  }

  /** The symbols of all rows (from their first two characters), or the
      first failure. */
  function NoteSymbols(rows: seq<ShortRow>): (r: Result<seq<Option<char>>>)
    ensures r.Ok? ==> |r.value| == |rows|
    ensures r.Ok? ==> forall i :: 0 <= i < |rows| ==> Abl3NoteToChar(NoteHead(rows[i].note)) == Ok(r.value[i])
    ensures r.Err? ==> exists i :: 0 <= i < |rows| && Abl3NoteToChar(NoteHead(rows[i].note)).Err?
  {
    if rows == [] then Ok([])
    else match Abl3NoteToChar(NoteHead(rows[0].note))
      case Err(e) => Err(e)
      case Ok(c) =>
        match NoteSymbols(rows[1..])
        case Err(e) => Err(e)
        case Ok(cs) => Ok([c] + cs)
  }

  /** x[0:2]. */
  function NoteHead(note: string): string
  {
    if |note| < 2 then note else note[..2]
  }

  function SumInts(xs: seq<int>): int
  {
    if xs == [] then 0 else SumInts(xs[..|xs| - 1]) + xs[|xs| - 1]
  }

  /** int(mean(digits)); the digits are never negative, so truncation and
      Dafny's floor division agree. */
  function TruncatedMean(octs: seq<int>): int
    requires |octs| > 0
  {
    SumInts(octs) / |octs|
  }

  /** The up/down counts of each octave digit relative to int(mean(digits)). */
  function OctaveColumns(octs: seq<int>): (r: seq<(int, int)>)
    requires |octs| > 0
    ensures |r| == |octs|
    ensures forall i :: 0 <= i < |octs| ==>
      r[i].0 - r[i].1 == Clamp(octs[i] - TruncatedMean(octs), -4, 4)
      && 0 <= r[i].0 <= 4 && 0 <= r[i].1 <= 4 && (r[i].0 == 0 || r[i].1 == 0)
  {
    var m := TruncatedMean(octs);
    seq(|octs|, i requires 0 <= i < |octs| => UpDown(octs[i] - m))
  }

  /** The output rows of the short layout: each row's symbol, its up/down
      counts and its own flags. */
  function ShortRows(rows: seq<ShortRow>, syms: seq<Option<char>>, cols: seq<(int, int)>)
    : (out: seq<Row<Option<char>>>)
    requires |syms| == |rows| && |cols| == |rows|
    ensures |out| == |rows|
    ensures forall i :: 0 <= i < |rows| ==>
      out[i] == Row(syms[i], cols[i].0, cols[i].1, rows[i].gate, rows[i].slide, rows[i].accent)
  {
    seq(|rows|, i requires 0 <= i < |rows| =>
      Row(syms[i], cols[i].0, cols[i].1, rows[i].gate, rows[i].slide, rows[i].accent))
  }

  /** convert_ABL3_short after loading: it fails exactly when there are no
      rows, or some note text has no octave digit, or some note name cannot
      be read; otherwise each row keeps its flags, takes the symbol its
      first two characters name, and moves its octave digit relative to the
      truncated mean of all digits, clipped to four octaves either way. */
  function ConvertAbl3Short(rows: seq<ShortRow>): (r: Result<seq<Row<Option<char>>>>)
    ensures r.Err? <==>
      || rows == []
      || (exists i :: 0 <= i < |rows| && OctaveOf(rows[i].note).Err?)
      || (exists i :: 0 <= i < |rows| && Abl3NoteToChar(NoteHead(rows[i].note)).Err?)
    ensures r.Ok? ==> |r.value| == |rows| > 0 && Octaves(rows).Ok?
  {
    var octs := Octaves(rows);
    var syms := NoteSymbols(rows);
    if octs.Err? then Err(octs.reason)
    else if rows == [] then Err(EmptyPattern)
    else if syms.Err? then Err(syms.reason)
    else
      var cols := OctaveColumns(octs.value);
      Ok(ShortRows(rows, syms.value, cols))
  }

  /** Each converted row takes the symbol its note name reads as, up and
      down counts in 0..4 of which at least one is 0, and its own flags. */
  lemma ShortRowsMeaning(rows: seq<ShortRow>)
    requires ConvertAbl3Short(rows).Ok?
    ensures var out := ConvertAbl3Short(rows).value;
      && |out| == |rows|
      && (forall i :: 0 <= i < |rows| ==> Abl3NoteToChar(NoteHead(rows[i].note)) == Ok(out[i].note))
      && (forall i :: 0 <= i < |rows| ==>
            0 <= out[i].up <= 4 && 0 <= out[i].down <= 4 && (out[i].up == 0 || out[i].down == 0))
      && (forall i :: 0 <= i < |rows| ==>
            out[i].gate == rows[i].gate && out[i].slide == rows[i].slide && out[i].accent == rows[i].accent)
  {
    var out := ConvertAbl3Short(rows).value;
    var syms := NoteSymbols(rows);
    var octs := Octaves(rows).value;
    assert syms.Ok? && rows != [];
    var cols := OctaveColumns(octs);
    assert out == ShortRows(rows, syms.value, cols);
  }

  /** The octave offset of each row is its digit minus the truncated mean
      of all digits, clipped to four octaves either way. */
  lemma ShortOctaveOffsets(rows: seq<ShortRow>, octs: seq<int>, out: seq<Row<Option<char>>>)
    requires Octaves(rows) == Ok(octs)
    requires ConvertAbl3Short(rows) == Ok(out)
    ensures |octs| == |out| > 0
    ensures forall i :: 0 <= i < |out| ==>
      out[i].up - out[i].down == Clamp(octs[i] - TruncatedMean(octs), -4, 4)
  {
    var syms := NoteSymbols(rows);
    assert syms.Ok? && rows != [];
    var cols := OctaveColumns(octs);
    assert out == ShortRows(rows, syms.value, cols);
  }

  lemma {:induction false} SumShifted(octs: seq<int>, c: int)
    ensures SumInts(seq(|octs|, i requires 0 <= i < |octs| => octs[i] + c)) == SumInts(octs) + c * |octs|
  {
    if octs != [] {
      var s := seq(|octs|, i requires 0 <= i < |octs| => octs[i] + c);
      assert s[..|s| - 1] == seq(|octs| - 1, i requires 0 <= i < |octs| - 1 => octs[..|octs| - 1][i] + c);
      SumShifted(octs[..|octs| - 1], c);
    }
  }

  /** Moving every octave digit by the same amount leaves the up/down
      columns unchanged (the truncated mean moves with them, with no
      rounding tie to break it), as long as the digits stay non-negative,
      where int() truncation and floor division agree. */
  lemma OctaveColumnsShiftInvariant(octs: seq<int>, c: int)
    requires |octs| > 0
    requires forall i :: 0 <= i < |octs| ==> 0 <= octs[i] && 0 <= octs[i] + c
    ensures OctaveColumns(seq(|octs|, i requires 0 <= i < |octs| => octs[i] + c)) == OctaveColumns(octs)
  {
    SumShifted(octs, c);
    DivModShift(SumInts(octs), c, |octs|);
  }

  // ---------------------------------------------------------------------
  // Long layout: note, down, up, accent, slide, gate

  datatype LongRow = LongRow(note: int, down: int, up: int, accent: int, slide: int, gate: int)

  /** The masked updates of convert_ABL3_long on one row, in order: a
      negative note gains 12; then a note equal to 12 becomes 0 and bumps up. */
  function ConvertLongRow(x: LongRow): (r: Row<int>)
    ensures -12 <= x.note <= 12 ==> IsPitchClass(r.note)
    ensures (r.note - x.note) % 12 == 0
    ensures r.up == x.up + (if x.note == 12 then 1 else 0)
    ensures r.down == x.down && r.gate == x.gate && r.slide == x.slide && r.accent == x.accent
  {
    var n1 := if x.note < 0 then x.note + 12 else x.note;
    var up := if n1 == 12 then x.up + 1 else x.up;
    var n2 := if n1 == 12 then 0 else n1;
    Row(n2, up, x.down, x.gate, x.slide, x.accent)
  }

  /** The long conversion keeps the absolute pitch note + 12 (up - down)
      exactly for rows whose note is not negative: a negative note is
      raised an octave with no octave count to make up for it. */
  lemma LongKeepsPitchIff(x: LongRow)
    ensures var r := ConvertLongRow(x);
      r.note + 12 * (r.up - r.down) == x.note + 12 * (x.up - x.down) <==> x.note >= 0
  {
  }

  /** convert_ABL3_long after loading: row by row, columns reordered. */
  function ConvertAbl3Long(rows: seq<LongRow>): (r: seq<Row<int>>)
    ensures |r| == |rows|
    ensures forall i :: 0 <= i < |rows| ==> r[i] == ConvertLongRow(rows[i])
  {
    seq(|rows|, i requires 0 <= i < |rows| => ConvertLongRow(rows[i]))
  }
}
