/**
 The small part of Python's `str` behaviour that the plugin relies on:
 `str.split()` with no argument, `" ".join(...)`, `str.isdigit()` on ASCII
 digits, `str.index` of a character, and the decimal value of a digit string.
 */
module Text {

  datatype Option<+T> = None | Some(value: T)

  /** The characters Python's `str.split()` treats as whitespace (`str.isspace`). */
  predicate IsSpace(c: char) {
    ('\U{0009}' <= c <= '\U{000D}') || ('\U{001C}' <= c <= '\U{001F}') || c == ' ' ||
    c == '\U{0085}' || c == '\U{00A0}' || c == '\U{1680}' || ('\U{2000}' <= c <= '\U{200A}') ||
    c == '\U{2028}' || c == '\U{2029}' || c == '\U{202F}' || c == '\U{205F}' || c == '\U{3000}'
  }

  /** A token that `split()` can produce: non-empty, no whitespace. */
  predicate IsWord(w: string) {
    |w| > 0 && forall i :: 0 <= i < |w| ==> !IsSpace(w[i])
  }

  predicate AllSpace(s: string) {
    forall i :: 0 <= i < |s| ==> IsSpace(s[i])
  }

  /** Length of the run of non-whitespace characters at the start of `s`. */
  function WordLength(s: string): (n: nat)
    ensures n <= |s|
    ensures forall i :: 0 <= i < n ==> !IsSpace(s[i])
    ensures n < |s| ==> IsSpace(s[n])
  {
    if s == [] || IsSpace(s[0]) then 0 else 1 + WordLength(s[1..])
  }

  /** `s.split()`: the maximal whitespace-free runs of `s`, in order. */
  function Tokens(s: string): (r: seq<string>)
    ensures forall k :: 0 <= k < |r| ==> IsWord(r[k])
    ensures r == [] <==> AllSpace(s)
    decreases |s|
  {
    if s == [] then []
    else if IsSpace(s[0]) then Tokens(s[1..])
    else
      var n := WordLength(s);
      [s[..n]] + Tokens(s[n..])
  }

  /** `sep.join(parts)`. */
  function Join(parts: seq<string>, sep: string): string {
    if |parts| == 0 then ""
    else if |parts| == 1 then parts[0]
    else parts[0] + sep + Join(parts[1..], sep)
  }

  lemma {:induction false} WordLengthOfWord(w: string, t: string)
    requires IsWord(w)
    requires t == [] || IsSpace(t[0])
    ensures WordLength(w + t) == |w|
  {
    if |w| > 1 {
      assert (w + t)[1..] == w[1..] + t;
      WordLengthOfWord(w[1..], t);
    } else {
      assert (w + t)[1..] == t;
    }
  }

  /** Joining whitespace-free words with a blank and splitting again gives the words back. */
  lemma {:induction false} TokensOfJoin(ws: seq<string>)
    requires forall k :: 0 <= k < |ws| ==> IsWord(ws[k])
    ensures Tokens(Join(ws, " ")) == ws
  {
    if |ws| == 1 {
      var w := ws[0];
      WordLengthOfWord(w, "");
      assert w + "" == w;
      assert w[|w|..] == [];
    } else if |ws| > 1 {
      var w, rest := ws[0], Join(ws[1..], " ");
      var s := w + " " + rest;
      WordLengthOfWord(w, " " + rest);
      assert s == w + (" " + rest);
      assert s[..|w|] == w;
      assert s[|w|..] == " " + rest;
      assert (" " + rest)[1..] == rest;
      TokensOfJoin(ws[1..]);
    }
  }

  /**
   The text `gaps[0] + ws[0] + gaps[1] + ws[1] + ... + ws[n-1] + gaps[n]`:
   words with a run of characters before, between and after them.
   */
  function Interleave(ws: seq<string>, gaps: seq<string>): string
    requires |gaps| == |ws| + 1
  {
    if ws == [] then gaps[0] else gaps[0] + (ws[0] + Interleave(ws[1..], gaps[1..]))
  }

  /** Whitespace in front of a text does not change how it splits. */
  lemma {:induction false} TokensAfterSpace(g: string, t: string)
    requires AllSpace(g)
    ensures Tokens(g + t) == Tokens(t)
  {
    if g != [] {
      var s := g + t;
      assert s[0] == g[0] && IsSpace(s[0]) && s[1..] == g[1..] + t;
      assert Tokens(s) == Tokens(s[1..]);
      assert forall i :: 0 <= i < |g[1..]| ==> g[1..][i] == g[i + 1];
      TokensAfterSpace(g[1..], t);
    } else {
      assert g + t == t;
    }
  }

  /** A word followed by whitespace or by nothing splits off as the first token. */
  lemma TokensOfWordFirst(w: string, t: string)
    requires IsWord(w)
    requires t == [] || IsSpace(t[0])
    ensures Tokens(w + t) == [w] + Tokens(t)
  {
    WordLengthOfWord(w, t);
    var s := w + t;
    assert s[0] == w[0] && !IsSpace(w[0]);
    assert s[..|w|] == w && s[|w|..] == t;
  }

  /**
   `s.split()` for every text: words separated by non-empty runs of whitespace,
   with optional whitespace before the first and after the last, split into
   exactly those words.
   */
  lemma {:induction false} TokensOfInterleave(ws: seq<string>, gaps: seq<string>)
    requires |gaps| == |ws| + 1
    requires forall k :: 0 <= k < |ws| ==> IsWord(ws[k])
    requires forall k :: 0 <= k < |gaps| ==> AllSpace(gaps[k])
    requires forall k :: 0 < k < |ws| ==> gaps[k] != []
    ensures Tokens(Interleave(ws, gaps)) == ws
  {
    if ws == [] {
      TokensAfterSpace(gaps[0], []);
      assert gaps[0] + [] == gaps[0];
    } else {
      var ws', gaps' := ws[1..], gaps[1..];
      forall k | 0 <= k < |ws'| ensures IsWord(ws'[k]) {
        assert ws'[k] == ws[k + 1];
      }
      forall k | 0 <= k < |gaps'| ensures AllSpace(gaps'[k]) {
        assert gaps'[k] == gaps[k + 1];
      }
      forall k | 0 < k < |ws'| ensures gaps'[k] != [] {
        assert gaps'[k] == gaps[k + 1];
      }
      var rest := Interleave(ws', gaps');
      TokensOfInterleave(ws', gaps');
      StartsWithSpace(ws', gaps');
      TokensOfWordFirst(ws[0], rest);
      TokensAfterSpace(gaps[0], ws[0] + rest);
      calc {
        Tokens(Interleave(ws, gaps));
        Tokens(gaps[0] + (ws[0] + rest));
        Tokens(ws[0] + rest);
        [ws[0]] + Tokens(rest);
        [ws[0]] + ws';
        ws;
      }
    }
  }

  lemma StartsWithSpace(ws: seq<string>, gaps: seq<string>)
    requires |gaps| == |ws| + 1 && AllSpace(gaps[0]) && (ws == [] || gaps[0] != [])
    ensures var t := Interleave(ws, gaps); t == [] || IsSpace(t[0])
  {
    if ws != [] {
      var t := Interleave(ws, gaps);
      assert t[0] == gaps[0][0];
    }
  }

  /** Joining two non-empty lists is joining each and putting one separator between. */
  lemma {:induction false} JoinAppend(a: seq<string>, b: seq<string>, sep: string)
    requires a != [] && b != []
    ensures Join(a + b, sep) == Join(a, sep) + sep + Join(b, sep)
  {
    if |a| == 1 {
      assert (a + b)[1..] == b;
    } else {
      assert (a + b)[1..] == a[1..] + b;
      JoinAppend(a[1..], b, sep);
    }
  }

  /** `t in s` for strings: `t` occurs in `s` as a contiguous piece. */
  predicate Contains(s: string, t: string) {
    exists i: nat :: i <= |s| && OccursAt(s, t, i)
  }

  predicate OccursAt(s: string, t: string, i: nat) {
    i + |t| <= |s| && s[i..i + |t|] == t
  }

  lemma {:induction false} JoinStartsWithFirst(parts: seq<string>, sep: string)
    requires parts != []
    ensures |parts[0]| <= |Join(parts, sep)| && Join(parts, sep)[..|parts[0]|] == parts[0]
  {
  }

  /** Two neighbouring parts show up, separator between them, in the joined text. */
  lemma {:induction false} JoinContainsNeighbours(parts: seq<string>, j: nat, sep: string)
    requires j + 1 < |parts|
    ensures Contains(Join(parts, sep), parts[j] + sep + parts[j + 1])
  {
    var s, t := Join(parts, sep), parts[j] + sep + parts[j + 1];
    var rest := Join(parts[1..], sep);
    assert s == parts[0] + sep + rest;
    if j == 0 {
      JoinStartsWithFirst(parts[1..], sep);
      assert s[..|t|] == t;
      assert OccursAt(s, t, 0);
    } else {
      JoinContainsNeighbours(parts[1..], j - 1, sep);
      assert parts[1..][j - 1] + sep + parts[1..][j] == t;
      var i: nat :| i <= |rest| && OccursAt(rest, t, i);
      var off := |parts[0]| + |sep|;
      assert s[off + i..off + i + |t|] == rest[i..i + |t|];
      assert OccursAt(s, t, off + i);
    }
  }

  predicate IsDigit(c: char) {
    '0' <= c <= '9'
  }

  /** `s.isdigit()`, restricted to ASCII digits: non-empty and all digits. */
  predicate IsDigits(s: string) {
    |s| > 0 && forall i :: 0 <= i < |s| ==> IsDigit(s[i])
  }

  /** The value of one ASCII digit. */
  function DigitValue(c: char): nat
    requires IsDigit(c)
  {
    c as int - '0' as int
  }

  /** The decimal value of a string of ASCII digits. */
  function DigitsValue(s: string): nat
    requires forall i :: 0 <= i < |s| ==> IsDigit(s[i])
  {
    if s == [] then 0
    else DigitsValue(s[..|s| - 1]) * 10 + DigitValue(s[|s| - 1])
  }

  /** The ASCII digit for `d < 10`. */
  function DigitChar(d: nat): (c: char)
    requires d < 10
    ensures IsDigit(c) && DigitValue(c) == d
  {
    (d + '0' as int) as char
  }

  /** `s.index(c)`: the first position of `c` in `s`. */
  function FirstIndex(s: string, c: char): (i: nat)
    requires c in s
    ensures i < |s| && s[i] == c
    ensures forall j :: 0 <= j < i ==> s[j] != c
  {
    if s[0] == c then 0 else 1 + FirstIndex(s[1..], c)
  }
}
