/** create_training_file.py: a pattern table becomes a line of text per
    step, and the patterns of a corpus are written one after another, each
    followed by a "~" line. */
module Tokenizer {

  /** One table row as text: the step index first, then the other columns
      in order (note, up, down, gate, slide, accent), each rendered by str. */
  type Cells = seq<string>

  /** The six field terminators, one per column after the step index. */
  const Separators: string := "!#$&%="
  const SeparatorSet: set<char> := {'!', '#', '$', '&', '%', '='}
  const Newline: set<char> := {'\n'}

  function Min(a: int, b: int): int { if a <= b then a else b }

  /** The columns after the step index. */
  function Tail(row: Cells): Cells
  {
    if row == [] then [] else row[1..]
  }

  /** zip(separators, cells): each cell followed by its separator, as far as
      the shorter of the two goes. */
  function Joined(cells: Cells, seps: string): string
  {
    if cells == [] || seps == [] then ""
    else cells[0] + [seps[0]] + Joined(cells[1..], seps[1..])
  }

  /** The text of one row. */
  function Line(row: Cells): string
  {
    Joined(Tail(row), Separators) + "\n"
  }

  /** tokenize_pattern. */
  function Tokenize(rows: seq<Cells>): string
  {
    if rows == [] then "" else Line(rows[0]) + Tokenize(rows[1..])
  }

  /** The concatenation rule of dump_patterns: every pattern's text, then "~\n". */
  function Corpus(pats: seq<seq<Cells>>): string
  {
    if pats == [] then "" else Tokenize(pats[0]) + "~\n" + Corpus(pats[1..])
  }

  // ---------------------------------------------------------------------
  // Reading text back: terminator-separated pieces

  predicate NoneIn(s: string, stops: set<char>)
  {
    forall k :: 0 <= k < |s| ==> s[k] !in stops
  }

  /** The pieces of s after the partial piece cur, each ended by one of the
      terminators; text after the last terminator is not a piece. */
  function SplitFrom(s: string, stops: set<char>, cur: string): seq<string>
    decreases |s|
  {
    if s == [] then []
    else if s[0] in stops then [cur] + SplitFrom(s[1..], stops, "")
    else SplitFrom(s[1..], stops, cur + [s[0]])
  }

  function Split(s: string, stops: set<char>): seq<string>
  {
    SplitFrom(s, stops, "")
  }

  /** Reads a token text back into rows of fields. */
  function Detokenize(s: string): (rows: seq<seq<string>>)
    ensures |rows| == |Split(s, Newline)|
  {
    var lines := Split(s, Newline);
    seq(|lines|, i requires 0 <= i < |lines| => Split(lines[i], SeparatorSet))
  }

  lemma {:induction false} SplitFromCons(p: string, c: char, rest: string, stops: set<char>, cur: string)
    requires NoneIn(p, stops) && c in stops
    ensures SplitFrom(p + [c] + rest, stops, cur) == [cur + p] + Split(rest, stops)
    decreases |p|
  {
    var s := p + [c] + rest;
    if p == [] {
      assert s[0] == c && s[1..] == rest;
      assert cur + p == cur;
    } else {
      assert s[0] == p[0] && s[1..] == p[1..] + [c] + rest;
      SplitFromCons(p[1..], c, rest, stops, cur + [p[0]]);
      assert cur + [p[0]] + p[1..] == cur + p;
    }
  }

  /** A terminator-free piece followed by a terminator reads back as that piece. */
  lemma SplitCons(p: string, c: char, rest: string, stops: set<char>)
    requires NoneIn(p, stops) && c in stops
    ensures Split(p + [c] + rest, stops) == [p] + Split(rest, stops)
  {
    SplitFromCons(p, c, rest, stops, "");
    assert "" + p == p;
  }

  // ---------------------------------------------------------------------
  // Round trip

  /** The number of fields a row contributes. */
  function FieldCount(row: Cells): nat
  {
    Min(|Tail(row)|, |Separators|)
  }

  /** The cells a row's line holds, in column order. */
  function Taken(row: Cells): (r: Cells)
    ensures |r| == FieldCount(row) <= 6
  {
    Tail(row)[..FieldCount(row)]
  }

  /** A cell whose text holds neither a separator nor a line break. */
  predicate Plain(cell: string)
  {
    NoneIn(cell, SeparatorSet + Newline)
  }

  predicate CleanRow(row: Cells)
  {
    forall j :: 0 <= j < |Taken(row)| ==> Plain(Taken(row)[j])
  }

  /** A row none of whose emitted cells holds a line break. */
  predicate BreakFree(row: Cells)
  {
    forall j :: 0 <= j < |Taken(row)| ==> NoneIn(Taken(row)[j], Newline)
  }

  lemma SeparatorsKnown()
    ensures |Separators| == 6
    ensures forall j :: 0 <= j < |Separators| ==> Separators[j] in SeparatorSet && Separators[j] !in Newline
  {
  }

  /** Joined cells read back field by field. */
  lemma {:induction false} JoinedSplit(cells: Cells, seps: string, stops: set<char>)
    requires forall j :: 0 <= j < |seps| ==> seps[j] in stops
    requires forall j :: 0 <= j < Min(|cells|, |seps|) ==> NoneIn(cells[j], stops)
    ensures Split(Joined(cells, seps), stops) == cells[..Min(|cells|, |seps|)]
    decreases |cells|
  {
    if cells == [] || seps == [] {
      assert Split("", stops) == [];
    } else {
      JoinedSplit(cells[1..], seps[1..], stops);
      SplitCons(cells[0], seps[0], Joined(cells[1..], seps[1..]), stops);
      assert cells[..Min(|cells|, |seps|)] == [cells[0]] + cells[1..][..Min(|cells| - 1, |seps| - 1)];
    }
  }

  /** A row's joined text has no line break when its cells have none. */
  lemma {:induction false} JoinedNoBreak(cells: Cells, seps: string)
    requires forall j :: 0 <= j < |seps| ==> seps[j] !in Newline
    requires forall j :: 0 <= j < Min(|cells|, |seps|) ==> NoneIn(cells[j], Newline)
    ensures NoneIn(Joined(cells, seps), Newline)
    decreases |cells|
  {
    if cells != [] && seps != [] {
      JoinedNoBreak(cells[1..], seps[1..]);
      var rest := Joined(cells[1..], seps[1..]);
      var s := cells[0] + [seps[0]] + rest;
      forall k | 0 <= k < |s| ensures s[k] !in Newline {
        if k < |cells[0]| { assert s[k] == cells[0][k]; }
        else if k > |cells[0]| { assert s[k] == rest[k - |cells[0]| - 1]; }
      }
    }
  }

  /** The body of a row's line, before its line break. */
  function LineBody(row: Cells): string
  {
    Joined(Tail(row), Separators)
  }

  /** Rows clean of separators and line breaks are free of line breaks. */
  lemma CleanBreakFree(rows: seq<Cells>)
    requires forall i :: 0 <= i < |rows| ==> CleanRow(rows[i])
    ensures forall i :: 0 <= i < |rows| ==> BreakFree(rows[i])
  {
    forall i, j | 0 <= i < |rows| && 0 <= j < |Taken(rows[i])|
      ensures NoneIn(Taken(rows[i])[j], Newline)
    {
      assert Plain(Taken(rows[i])[j]);
    }
  }

  /** A row's line body holds no line break when its emitted cells hold none. */
  lemma LineNoBreak(row: Cells)
    requires BreakFree(row)
    ensures NoneIn(LineBody(row), Newline)
  {
    SeparatorsKnown();
    var cells := Tail(row);
    forall j | 0 <= j < Min(|cells|, |Separators|) ensures NoneIn(cells[j], Newline) {
      assert cells[j] == Taken(row)[j];
    }
    JoinedNoBreak(cells, Separators);
  }

  lemma LineFields(row: Cells)
    requires CleanRow(row)
    ensures NoneIn(LineBody(row), Newline)
    ensures Split(LineBody(row), SeparatorSet) == Taken(row)
  {
    SeparatorsKnown();
    var cells := Tail(row);
    forall j | 0 <= j < Min(|cells|, |Separators|)
      ensures NoneIn(cells[j], Newline) && NoneIn(cells[j], SeparatorSet)
    {
      assert cells[j] == Taken(row)[j];
    }
    JoinedNoBreak(cells, Separators);
    JoinedSplit(cells, Separators, SeparatorSet);
  }

  /** The lines of a token text followed by more text: the rows' joined
      fields, one per row, then the lines of what follows. */
  lemma {:induction false} TokenizeLinesThen(rows: seq<Cells>, tail: string)
    requires forall i :: 0 <= i < |rows| ==> BreakFree(rows[i])
    ensures Split(Tokenize(rows) + tail, Newline)
         == seq(|rows|, i requires 0 <= i < |rows| => LineBody(rows[i])) + Split(tail, Newline)
    decreases |rows|
  {
    if rows == [] {
      assert Tokenize(rows) + tail == tail;
    } else {
      var body := LineBody(rows[0]);
      var more := Tokenize(rows[1..]) + tail;
      LineNoBreak(rows[0]);
      TokenizeLinesThen(rows[1..], tail);
      assert Tokenize(rows) + tail == body + ['\n'] + more;
      SplitCons(body, '\n', more, Newline);
      LineBodiesCons(rows);
    }
  }

  /** The line bodies of rows are the first row's, then the rest's. */
  lemma LineBodiesCons(rows: seq<Cells>)
    requires rows != []
    ensures seq(|rows|, i requires 0 <= i < |rows| => LineBody(rows[i]))
         == [LineBody(rows[0])] + seq(|rows| - 1, i requires 0 <= i < |rows| - 1 => LineBody(rows[1..][i]))
  {
    var bodies := seq(|rows|, i requires 0 <= i < |rows| => LineBody(rows[i]));
    var later := seq(|rows| - 1, i requires 0 <= i < |rows| - 1 => LineBody(rows[1..][i]));
    assert forall i :: 0 <= i < |bodies| ==> bodies[i] == ([LineBody(rows[0])] + later)[i];
  }

  /** The lines of a token text are the rows' joined fields, one per row,
      provided no emitted cell holds a line break. */
  lemma TokenizeLines(rows: seq<Cells>)
    requires forall i :: 0 <= i < |rows| ==> BreakFree(rows[i])
    ensures Split(Tokenize(rows), Newline) == seq(|rows|, i requires 0 <= i < |rows| => LineBody(rows[i]))
  {
    TokenizeLinesThen(rows, "");
    assert Tokenize(rows) + "" == Tokenize(rows);
    assert Split("", Newline) == [];
  }

  /** Reading the text of a pattern back gives each row's first six
      columns after the step index, provided no cell holds a separator or a
      line break. */
  lemma TokenizeRoundTrip(rows: seq<Cells>)
    requires forall i :: 0 <= i < |rows| ==> CleanRow(rows[i])
    ensures Detokenize(Tokenize(rows)) == seq(|rows|, i requires 0 <= i < |rows| => Taken(rows[i]))
  {
    CleanBreakFree(rows);
    TokenizeLines(rows);
    BodiesReadBack(rows, Split(Tokenize(rows), Newline));
  }

  /** Each line body of clean rows splits back into that row's cells. */
  lemma BodiesReadBack(rows: seq<Cells>, lines: seq<string>)
    requires forall i :: 0 <= i < |rows| ==> CleanRow(rows[i])
    requires lines == seq(|rows|, i requires 0 <= i < |rows| => LineBody(rows[i]))
    ensures seq(|lines|, i requires 0 <= i < |lines| => Split(lines[i], SeparatorSet))
         == seq(|rows|, i requires 0 <= i < |rows| => Taken(rows[i]))
  {
    forall i | 0 <= i < |rows| ensures Split(lines[i], SeparatorSet) == Taken(rows[i]) {
      LineFields(rows[i]);
    }
  }

  /** Each row's text ends its line. */
  lemma {:induction false} TokenizeEndsLine(rows: seq<Cells>)
    ensures Tokenize(rows) == [] || Tokenize(rows)[|Tokenize(rows)| - 1] == '\n'
    decreases |rows|
  {
    if rows != [] {
      TokenizeEndsLine(rows[1..]);
      if Tokenize(rows[1..]) == [] {
        assert Tokenize(rows) == Line(rows[0]);
      }
    }
  }

  /** The lines of a corpus: each pattern's lines, then a "~" line. */
  function CorpusLines(pats: seq<seq<Cells>>): seq<string>
  {
    if pats == [] then []
    else seq(|pats[0]|, i requires 0 <= i < |pats[0]| => LineBody(pats[0][i])) + ["~"] + CorpusLines(pats[1..])
  }

  /** A corpus reads back as its patterns' lines, each pattern closed by a
      "~" line, provided no emitted cell holds a line break. */
  lemma {:induction false} CorpusSplit(pats: seq<seq<Cells>>)
    requires forall p, i :: 0 <= p < |pats| && 0 <= i < |pats[p]| ==> BreakFree(pats[p][i])
    ensures Split(Corpus(pats), Newline) == CorpusLines(pats)
    decreases |pats|
  {
    if pats != [] {
      var rest := Corpus(pats[1..]);
      assert Corpus(pats) == Tokenize(pats[0]) + (['~'] + ['\n'] + rest);
      TokenizeLinesThen(pats[0], ['~'] + ['\n'] + rest);
      SplitCons(['~'], '\n', rest, Newline);
      CorpusSplit(pats[1..]);
    }
  }

  // ---------------------------------------------------------------------
  // The loops of tokenize_pattern and dump_patterns

  lemma {:induction false} JoinedSnoc(cells: Cells, seps: string, c: string, x: char)
    requires |cells| == |seps|
    ensures Joined(cells + [c], seps + [x]) == Joined(cells, seps) + c + [x]
    decreases |cells|
  {
    if cells == [] {
      assert Joined([], []) == "";
      assert Joined([c], [x]) == c + [x] + Joined([], []);
    } else {
      assert (cells + [c])[1..] == cells[1..] + [c];
      assert (seps + [x])[1..] == seps[1..] + [x];
      JoinedSnoc(cells[1..], seps[1..], c, x);
    }
  }

  lemma {:induction false} JoinedTrim(cells: Cells, seps: string)
    ensures Joined(cells, seps) == Joined(cells[..Min(|cells|, |seps|)], seps[..Min(|cells|, |seps|)])
    decreases |cells|
  {
    if cells != [] && seps != [] {
      var k := Min(|cells|, |seps|);
      JoinedTrim(cells[1..], seps[1..]);
      assert cells[..k][1..] == cells[1..][..k - 1];
      assert seps[..k][1..] == seps[1..][..k - 1];
    }
  }

  lemma {:induction false} TokenizeSnoc(rows: seq<Cells>, row: Cells)
    ensures Tokenize(rows + [row]) == Tokenize(rows) + Line(row)
    decreases |rows|
  {
    if rows == [] {
      assert [] + [row] == [row];
    } else {
      assert (rows + [row])[1..] == rows[1..] + [row];
      TokenizeSnoc(rows[1..], row);
    }
  }

  lemma {:induction false} CorpusSnoc(pats: seq<seq<Cells>>, p: seq<Cells>)
    ensures Corpus(pats + [p]) == Corpus(pats) + Tokenize(p) + "~\n"
    decreases |pats|
  {
    if pats == [] {
      assert [] + [p] == [p];
    } else {
      assert (pats + [p])[1..] == pats[1..] + [p];
      CorpusSnoc(pats[1..], p);
    }
  }

  /** The inner loop of tokenize_pattern: the row's columns after the step
      index, each followed by its separator, then a line break. */
  method AppendLine(s: string, row: Cells) returns (t: string)
    ensures t == s + Line(row)
  {
    var cells := Tail(row);
    var k := Min(|cells|, |Separators|);
    t := s;
    var j := 0;
    while j < k
      invariant 0 <= j <= k
      invariant t == s + Joined(cells[..j], Separators[..j])
    {
      assert Joined(cells[..j + 1], Separators[..j + 1])
          == Joined(cells[..j], Separators[..j]) + cells[j] + [Separators[j]] by {
        JoinedSnoc(cells[..j], Separators[..j], cells[j], Separators[j]);
        assert cells[..j + 1] == cells[..j] + [cells[j]];
        assert Separators[..j + 1] == Separators[..j] + [Separators[j]];
      }
      t := t + cells[j] + [Separators[j]];
      j := j + 1;
    }
    JoinedTrim(cells, Separators);
    t := t + "\n";
  }

  /** tokenize_pattern: one line per row, in row order. */
  method TokenizePattern(rows: seq<Cells>) returns (s: string)
    ensures s == Tokenize(rows)
    ensures s == "" <==> rows == []
  {
    s := "";
    var i := 0;
    while i < |rows|
      invariant 0 <= i <= |rows|
      invariant s == Tokenize(rows[..i])
    {
      s := AppendLine(s, rows[i]);
      TokenizeSnoc(rows[..i], rows[i]);
      assert rows[..i + 1] == rows[..i] + [rows[i]];
      i := i + 1;
    }
    assert rows[..|rows|] == rows;
    assert rows != [] ==> Tokenize(rows)[|Line(rows[0])| - 1] == '\n';
  }

  /** dump_patterns after reading the files: each pattern's text, then "~\n". */
  method DumpPatterns(pats: seq<seq<Cells>>) returns (out: string)
    ensures out == Corpus(pats)
  {
    out := "";
    var i := 0;
    while i < |pats|
      invariant 0 <= i <= |pats|
      invariant out == Corpus(pats[..i])
    {
      var text := TokenizePattern(pats[i]);
      CorpusSnoc(pats[..i], pats[i]);
      assert pats[..i + 1] == pats[..i] + [pats[i]];
      out := out + text + "~\n";
      i := i + 1;
    }
    assert pats[..|pats|] == pats;
  }
}
