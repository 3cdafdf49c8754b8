/**
 * The pixelType string of the single-wire driver: each of its first five
 * characters names the colour byte that goes out in that position.
 */
module PixelType {
  import opened Common

  /** The characters a pixelType may use, in the order the constructor searches them. */
  const Alphabet: string := "RGBWC01234-"

  /** Most characters the constructor examines, and so most bytes per pixel. */
  const MaxBytesPerPixel: nat := 5

  /** `toupper` in the C locale: only the letters a to z change. */
  function ToUpper(ch: char): char
  {
    if 'a' <= ch <= 'z' then (ch as int - 32) as char else ch
  }

  /**
   * `strchrnul(s, ch) - s`: the position of the first `ch` in `s`, or `|s|`
   * (the terminator) when `s` does not hold `ch`. `IndexOfFirst` proves that
   * this is what it computes.
   */
  function IndexOf(s: string, ch: char): (r: nat)
    ensures r <= |s|
  {
    IndexFrom(s, ch, 0)
  }

  /** The search of `IndexOf`, from position `i` on. */
  function IndexFrom(s: string, ch: char, i: nat): (r: nat)
    requires i <= |s|
    ensures i <= r <= |s|
    decreases |s| - i
  {
    if i == |s| then i
    else if s[i] == ch then i
    else IndexFrom(s, ch, i + 1)
  }

  /** The search from `i` stops at the first `ch` at or after `i`, or at the end. */
  lemma {:induction false} IndexFromFirst(s: string, ch: char, i: nat)
    requires i <= |s|
    ensures var r := IndexFrom(s, ch, i);
      (r < |s| ==> s[r] == ch) && forall j :: i <= j < r ==> s[j] != ch
    decreases |s| - i
  {
    if i < |s| && s[i] != ch {
      IndexFromFirst(s, ch, i + 1);
    }
  }

  /** `IndexOf` finds the first occurrence, and reaches the end only when there is none. */
  lemma IndexOfFirst(s: string, ch: char)
    ensures var r := IndexOf(s, ch);
      (r < |s| ==> s[r] == ch) && forall j :: 0 <= j < r ==> s[j] != ch
  {
    IndexFromFirst(s, ch, 0);
  }

  /**
   * What each listed character names, written out: the letters R, G, B, W, C
   * name channels 0 to 4, the digits 0 to 4 name raw byte slots, and '-' is
   * slot 0. Any other character names nothing.
   */
  function Named(u: char): Option<nat>
  {
    match u
    case 'R' => Some(0)
    case 'G' => Some(1)
    case 'B' => Some(2)
    case 'W' => Some(3)
    case 'C' => Some(4)
    case '0' => Some(0)
    case '1' => Some(1)
    case '2' => Some(2)
    case '3' => Some(3)
    case '4' => Some(4)
    case '-' => Some(0)
    case _ => None
  }

  /** A character is known when its upper-case form names a slot. */
  predicate InAlphabet(ch: char)
  {
    Named(ToUpper(ch)).Some?
  }

  /**
   * The map entry stored for one character: the slot it names, or slot 1 for
   * an unknown character, whose search stops at the terminator, position 11.
   */
  function MapEntry(ch: char): nat
  {
    if InAlphabet(ch) then Named(ToUpper(ch)).value else 1
  }

  /** The remap table the parse loop leaves behind: one entry per examined character. */
  function ParseMap(s: string): seq<nat>
  {
    seq(Min(|s|, MaxBytesPerPixel), i requires 0 <= i < Min(|s|, MaxBytesPerPixel) => MapEntry(s[i]))
  }

  /** A pixelType the constructor accepts: three to five known characters. */
  predicate Accepted(s: string)
  {
    3 <= |s| <= MaxBytesPerPixel && forall i :: 0 <= i < |s| ==> InAlphabet(s[i])
  }

  /** Whether one of the first `n` characters of `s` is unknown, as the parse loop accumulates it. */
  predicate UnknownBefore(s: string, n: nat)
    requires n <= |s|
  {
    n > 0 && (UnknownBefore(s, n - 1) || !InAlphabet(s[n - 1]))
  }

  /** The accumulated flag holds exactly when some examined character is unknown. */
  lemma {:induction false} UnknownAmong(s: string, n: nat)
    requires n <= |s|
    ensures UnknownBefore(s, n) <==> exists j :: 0 <= j < n && !InAlphabet(s[j])
  {
    if n > 0 {
      UnknownAmong(s, n - 1);
      var known := InAlphabet(s[n - 1]);
      if !known {
        assert 0 <= n - 1 < n && !InAlphabet(s[n - 1]);
      }
    }
  }

  /**
   * The constructor's rejection test (fewer than three characters parsed, a
   * string longer than five, or an unknown character among those parsed)
   * fails exactly for accepted strings.
   */
  lemma RejectionTest(s: string, invalidMap: bool)
    requires invalidMap <==> exists j :: 0 <= j < Min(|s|, MaxBytesPerPixel) && !InAlphabet(s[j])
    ensures (Min(|s|, MaxBytesPerPixel) < 3 || |s| > MaxBytesPerPixel || invalidMap) <==> !Accepted(s)
  {
  }

  /**
   * The constructor's search of "RGBWC01234-" for the upper-cased character
   * reaches the terminator exactly for unknown characters, and the position
   * it stops at, reduced modulo 5, is the character's map entry.
   */
  lemma SearchMeaning(ch: char)
    ensures IndexOf(Alphabet, ToUpper(ch)) == |Alphabet| <==> !InAlphabet(ch)
    ensures IndexOf(Alphabet, ToUpper(ch)) % 5 == MapEntry(ch)
  {
    var u := ToUpper(ch);
    var r := IndexOf(Alphabet, u);
    IndexOfFirst(Alphabet, u);
    if r == 0 { assert u == 'R'; }
    else if r == 1 { assert u == 'G'; }
    else if r == 2 { assert u == 'B'; }
    else if r == 3 { assert u == 'W'; }
    else if r == 4 { assert u == 'C'; }
    else if r == 5 { assert u == '0'; }
    else if r == 6 { assert u == '1'; }
    else if r == 7 { assert u == '2'; }
    else if r == 8 { assert u == '3'; }
    else if r == 9 { assert u == '4'; }
    else if r == 10 { assert u == '-'; }
    else {
      assert forall j :: 0 <= j < |Alphabet| ==> Alphabet[j] != u;
    }
  }

  /** A character is known exactly when its upper-case form occurs in the alphabet. */
  lemma KnownIffListed(ch: char)
    ensures InAlphabet(ch) <==> ToUpper(ch) in Alphabet
  {
    var u := ToUpper(ch);
    SearchMeaning(ch);
    IndexOfFirst(Alphabet, u);
    var r := IndexOf(Alphabet, u);
    if r < |Alphabet| {
      assert Alphabet[r] == u;
    }
  }

  /** "GRB" puts green first, then red, then blue. */
  lemma GrbLayout()
    ensures Accepted("GRB")
    ensures ParseMap("GRB") == [1, 0, 2]
  {
  }

  /** Lower case means the same as upper case. */
  lemma LowerCaseRgbwLayout()
    ensures Accepted("rgbw")
    ensures ParseMap("rgbw") == [0, 1, 2, 3]
  {
  }

  /** Five characters are accepted, and '-' stands for slot 0. */
  lemma FiveByteLayout()
    ensures Accepted("-RGBW")
    ensures ParseMap("-RGBW") == [0, 0, 1, 2, 3]
  {
  }

  /** An unknown character is stored as slot 1 and makes the string rejected. */
  lemma UnknownCharacter()
    ensures !Accepted("GRBX")
    ensures |ParseMap("GRBX")| == 4 && ParseMap("GRBX")[3] == 1
  {
    assert "GRBX"[3] == 'X';
  }

  /** Only the first five characters are parsed, but a longer string is rejected. */
  lemma LongStringRejected()
    ensures !Accepted("RGBWCR")
    ensures ParseMap("RGBWCR") == [0, 1, 2, 3, 4]
  {
  }
}
