/** The canonical pattern row every converter produces, the clipped
    up/down octave split they share, and the failures a conversion can end in. */
module Pattern {

  /** One step of a canonical pattern, columns in their written order:
      note, up, down, gate, slide, accent.  The note column is a pitch
      symbol for some sources and a pitch-class number for others. */
  datatype Row<N> = Row(note: N, up: int, down: int, gate: int, slide: int, accent: int)

  /** Why a conversion stopped without a pattern. */
  datatype Failure =
    | MissingStep        // a grid access outside steps 1..n
    | RestGateOpen       // a rested step carries an open gate
    | UnbalancedNotes    // note-ons and note-offs do not pair up
    | UnsetFirstStep     // step 1 has no pitch after forward filling
    | EmptyPattern       // a mean taken over no steps
    | MissingColumns     // an empty step table has no up/down columns
    | NoteTextTooShort   // a note text lacks the character read from it
    | BadOctaveDigit     // an octave character is not a digit
    | UnknownNoteLetter  // a sharp on a letter outside the alphabet
    | SharpPastB         // a sharp that runs off the end of the alphabet

  datatype Result<T> = Ok(value: T) | Err(reason: Failure)

  datatype Option<T> = None | Some(value: T)

  /** Outcome of an in-place operation. */
  datatype Status = Done | Failed(reason: Failure)

  function Clamp(x: int, lo: int, hi: int): int
    requires lo <= hi
  {
    if x < lo then lo else if x > hi then hi else x
  }

  /** Splits a signed octave offset into the up and down counts of a row:
      up = clip(offset, 0, 4) and down = |clip(offset, -4, 0)|. */
  function UpDown(offset: int): (r: (int, int))
    ensures 0 <= r.0 <= 4 && 0 <= r.1 <= 4
    ensures r.0 == 0 || r.1 == 0
    ensures r.0 - r.1 == Clamp(offset, -4, 4)
  {
    var up := Clamp(offset, 0, 4);
    var low := Clamp(offset, -4, 0);
    (up, if low < 0 then -low else low)
  }

  // Integer division facts used by the mean-octave arguments.

  lemma {:induction false} MulAtLeast(x: int, d: int)
    requires x >= 1 && d > 0
    ensures x * d >= d
    decreases x
  {
    if x > 1 {
      MulAtLeast(x - 1, d);
      assert x * d == (x - 1) * d + d;
    }
  }

  /** Quotient and remainder are unique. */
  lemma DivModUnique(a: int, d: int, q: int, r: int)
    requires d > 0 && 0 <= r < d && a == q * d + r
    ensures a / d == q && a % d == r
  {
    var q0, r0 := a / d, a % d;
    assert q0 * d + r0 == q * d + r;
    assert (q0 - q) * d == r - r0;
    if q0 - q >= 1 {
      MulAtLeast(q0 - q, d);
    } else if q - q0 >= 1 {
      MulAtLeast(q - q0, d);
    }
  }

  /** Adding k whole divisors adds k to the quotient and keeps the remainder. */
  lemma DivModShift(num: int, k: int, den: int)
    requires den > 0
    ensures (num + k * den) / den == num / den + k
    ensures (num + k * den) % den == num % den
  {
    var q := num / den;
    assert num + k * den == (q + k) * den + num % den;
    DivModUnique(num + k * den, den, q + k, num % den);
  }
}
