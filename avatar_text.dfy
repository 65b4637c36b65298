/** Text handling of the avatar generator: the colour table keyed by an
    initial, and the clean-up that turns a user's name into the one or two
    characters drawn on the avatar.

    Strings are sequences of runes. The Go code slices bytes and upper-cases
    with Unicode tables; the two agree with this model on ASCII text. */
module AvatarText {

  newtype byte = x: int | 0 <= x < 256

  /** An opaque RGBA colour, as image/color.RGBA. */
  datatype Rgba = Rgba(r: byte, g: byte, b: byte, a: byte)

  const Red: Rgba := Rgba(230, 25, 75, 255)
  const Green: Rgba := Rgba(60, 180, 75, 255)
  const Yellow: Rgba := Rgba(255, 225, 25, 255)
  const Blue: Rgba := Rgba(0, 130, 200, 255)
  const Orange: Rgba := Rgba(245, 130, 48, 255)
  const Purple: Rgba := Rgba(145, 30, 180, 255)
  const Cyan: Rgba := Rgba(70, 240, 240, 255)
  const Magenta: Rgba := Rgba(240, 50, 230, 255)
  const Lime: Rgba := Rgba(210, 245, 60, 255)
  const Pink: Rgba := Rgba(250, 190, 190, 255)
  const Teal: Rgba := Rgba(0, 128, 128, 255)
  const Lavender: Rgba := Rgba(230, 190, 255, 255)
  const Brown: Rgba := Rgba(170, 110, 40, 255)
  const Beige: Rgba := Rgba(255, 250, 200, 255)
  const Maroon: Rgba := Rgba(128, 0, 0, 255)
  const Mint: Rgba := Rgba(170, 255, 195, 255)
  const Olive: Rgba := Rgba(128, 128, 0, 255)
  const Coral: Rgba := Rgba(255, 215, 180, 255)
  const Navy: Rgba := Rgba(0, 0, 128, 255)
  const Grey: Rgba := Rgba(128, 128, 128, 255)
  const Gold: Rgba := Rgba(251, 184, 41, 255)

  /** The colour of each initial "A" .. "T", in alphabetical order; the
      digits "0" .. "9" share the colours of "A" .. "J". Note that G is Lime
      and H is Magenta, and J is Cyan, whatever order the constants are
      declared in. */
  const InitialColors: seq<Rgba> :=
    [Red, Green, Yellow, Blue, Orange, Purple, Lime, Magenta, Pink, Cyan,
     Teal, Lavender, Brown, Beige, Maroon, Mint, Olive, Coral, Navy, Gold]

  predicate IsLetterInitial(s: string) {
    |s| == 1 && 'A' <= s[0] <= 'T'
  }

  predicate IsDigitInitial(s: string) {
    |s| == 1 && '0' <= s[0] <= '9'
  }

  /** The background colour of an avatar whose first character is `initial`.
      Go's switch compares the whole string with one-character literals,
      which is a length-one test followed by a match on that character. */
  function DefaultColor(initial: string): (c: Rgba)
    ensures IsLetterInitial(initial) ==> c == InitialColors[initial[0] as int - 'A' as int]
    ensures IsDigitInitial(initial) ==> c == InitialColors[initial[0] as int - '0' as int]
    ensures !IsLetterInitial(initial) && !IsDigitInitial(initial) ==> c == Grey
  {
    if |initial| != 1 then Grey
    else
      match initial[0]
      case 'A' | '0' => Red
      case 'B' | '1' => Green
      case 'C' | '2' => Yellow
      case 'D' | '3' => Blue
      case 'E' | '4' => Orange
      case 'F' | '5' => Purple
      case 'G' | '6' => Lime
      case 'H' | '7' => Magenta
      case 'I' | '8' => Pink
      case 'J' | '9' => Cyan
      case 'K' => Teal
      case 'L' => Lavender
      case 'M' => Brown
      case 'N' => Beige
      case 'O' => Maroon
      case 'P' => Mint
      case 'Q' => Olive
      case 'R' => Coral
      case 'S' => Navy
      case 'T' => Gold
      case _ => Grey
  }

  /** No two of the initials "A" .. "T" share a colour, and none of them is
      Grey. */
  lemma InitialColorsDistinct()
    ensures forall i, j | 0 <= i < j < |InitialColors| :: InitialColors[i] != InitialColors[j]
    ensures Grey !in InitialColors
  {
  }

  /** Grey is the colour of exactly the strings that are not one letter
      "A" .. "T" or one digit. */
  lemma DefaultColorGrey(initial: string)
    ensures DefaultColor(initial) == Grey <==> !IsLetterInitial(initial) && !IsDigitInitial(initial)
  {
    InitialColorsDistinct();
  }

  // ---------------------------------------------------------------------
  // strings.TrimSpace

  /** unicode.IsSpace: the white space strings.TrimSpace removes. */
  predicate IsSpace(c: char) {
    var n := c as int;
    (9 <= n <= 13) || n == 32 || n == 0x85 || n == 0xA0 || n == 0x1680 ||
    (0x2000 <= n <= 0x200A) || n == 0x2028 || n == 0x2029 || n == 0x202F ||
    n == 0x205F || n == 0x3000
  }

  /** Neither the first nor the last character is white space. */
  predicate NoEdgeSpace(s: string) {
    s == [] || (!IsSpace(s[0]) && !IsSpace(s[|s| - 1]))
  }

  /** Drops the leading white space: the result is a suffix of `s` and
      everything dropped is white space. */
  function TrimLeft(s: string): (r: string)
    ensures |r| <= |s| && r == s[|s| - |r|..]
    ensures forall k | 0 <= k < |s| - |r| :: IsSpace(s[k])
    ensures r == [] || !IsSpace(r[0])
  {
    if s != [] && IsSpace(s[0]) then TrimLeft(s[1..]) else s
  }

  /** Drops the trailing white space: the result is a prefix of `s` and
      everything dropped is white space. */
  function TrimRight(s: string): (r: string)
    ensures |r| <= |s| && r == s[..|r|]
    ensures forall k | |r| <= k < |s| :: IsSpace(s[k])
    ensures r == [] || !IsSpace(r[|r| - 1])
  {
    if s != [] && IsSpace(s[|s| - 1]) then TrimRight(s[..|s| - 1]) else s
  }

  /** The number of white-space characters at the start of `s`. */
  function LeadingSpace(s: string): (n: nat)
    ensures n <= |s|
  {
    |s| - |TrimLeft(s)|
  }

  /** strings.TrimSpace: `s` with its leading and trailing white space
      removed, and nothing else. */
  function TrimSpace(s: string): (r: string)
    ensures NoEdgeSpace(r)
    ensures LeadingSpace(s) + |r| <= |s| && r == s[LeadingSpace(s)..LeadingSpace(s) + |r|]
    ensures forall k | 0 <= k < LeadingSpace(s) :: IsSpace(s[k])
    ensures forall k | LeadingSpace(s) + |r| <= k < |s| :: IsSpace(s[k])
    ensures NoEdgeSpace(s) ==> r == s
  {
    var l := TrimLeft(s);
    var r := TrimRight(l);
    assert r == s[|s| - |l|..|s| - |l| + |r|];
    r
  }

  /** Trimming a two-character string that starts with a non-space. */
  lemma TrimSpacePair(x: char, y: char)
    requires !IsSpace(x)
    ensures TrimSpace([x, y]) == if IsSpace(y) then [x] else [x, y]
  {
    var s := [x, y];
    assert TrimLeft(s) == s;
    if IsSpace(y) {
      assert TrimRight(s) == TrimRight([x]);
    }
  }

  // ---------------------------------------------------------------------
  // strings.ToUpper on ASCII letters

  predicate IsLower(c: char) {
    'a' <= c <= 'z'
  }

  function UpperChar(c: char): char {
    if IsLower(c) then (c as int - 32) as char else c
  }

  /** strings.ToUpper: every lower-case ASCII letter replaced by its capital;
      white space, and the space character in particular, stay where they
      are. */
  function ToUpper(s: string): (r: string)
    ensures |r| == |s|
    ensures forall k | 0 <= k < |s| :: r[k] == UpperChar(s[k])
  {
    seq(|s|, k requires 0 <= k < |s| => UpperChar(s[k]))
  }

  /** Upper-casing leaves white space, and the space character, alone and
      leaves no lower-case letter. */
  lemma UpperCharKeepsSpace(c: char)
    ensures IsSpace(UpperChar(c)) == IsSpace(c)
    ensures UpperChar(c) == ' ' <==> c == ' '
    ensures !IsLower(UpperChar(c))
  {
  }

  lemma ToUpperFixed(s: string)
    requires forall k | 0 <= k < |s| :: !IsLower(s[k])
    ensures ToUpper(s) == s
  {
  }

  // ---------------------------------------------------------------------
  // strings.Split and strings.Join with a one-character separator

  /** The number of occurrences of `c` in `s`. */
  function Count(s: string, c: char): nat {
    if s == [] then 0 else (if s[0] == c then 1 else 0) + Count(s[1..], c)
  }

  /** strings.Split(s, sep): the pieces between the separators, so one more
      piece than there are separators, and no piece holds a separator. */
  function Split(s: string, sep: char): (parts: seq<string>)
    ensures |parts| == Count(s, sep) + 1
    ensures forall p | p in parts :: sep !in p
    decreases |s|
  {
    if s == [] then [[]]
    else
      var rest := Split(s[1..], sep);
      if s[0] == sep then [[]] + rest
      else [[s[0]] + rest[0]] + rest[1..]
  }

  /** strings.Join(parts, sep). */
  function Join(parts: seq<string>, sep: char): string {
    if |parts| == 0 then []
    else if |parts| == 1 then parts[0]
    else parts[0] + [sep] + Join(parts[1..], sep)
  }

  /** Joining the pieces of a split gives back the string. */
  lemma {:induction false} JoinSplit(s: string, sep: char)
    ensures Join(Split(s, sep), sep) == s
    decreases |s|
  {
    if s != [] {
      var rest := Split(s[1..], sep);
      JoinSplit(s[1..], sep);
      if s[0] == sep {
        assert Split(s, sep)[1..] == rest;
        assert [sep] + s[1..] == s;
      } else if |rest| == 1 {
        assert [s[0]] + s[1..] == s;
      } else {
        var parts := Split(s, sep);
        assert parts[1..] == rest[1..];
        assert Join(rest, sep) == rest[0] + [sep] + Join(rest[1..], sep);
        assert [s[0]] + s[1..] == s;
      }
    }
  }

  /** A string without separators splits into itself alone. */
  lemma {:induction false} SplitNoSeparator(a: string, sep: char)
    requires sep !in a
    ensures Split(a, sep) == [a]
    decreases |a|
  {
    if a != [] {
      SplitNoSeparator(a[1..], sep);
      assert [a[0]] + a[1..] == a;
    }
  }

  /** Splitting at the first separator. */
  lemma {:induction false} SplitAtFirst(a: string, sep: char, b: string)
    requires sep !in a
    ensures Split(a + [sep] + b, sep) == [a] + Split(b, sep)
    decreases |a|
  {
    if a != [] {
      SplitAtFirst(a[1..], sep, b);
      assert (a + [sep] + b)[1..] == a[1..] + [sep] + b;
      assert [a[0]] + a[1..] == a;
    } else {
      assert (a + [sep] + b)[1..] == b;
    }
  }

  /** Splitting a join of separator-free pieces gives back the pieces. */
  lemma {:induction false} SplitJoin(parts: seq<string>, sep: char)
    requires |parts| >= 1
    requires forall p | p in parts :: sep !in p
    ensures Split(Join(parts, sep), sep) == parts
    decreases |parts|
  {
    if |parts| == 1 {
      SplitNoSeparator(parts[0], sep);
    } else {
      SplitJoin(parts[1..], sep);
      SplitAtFirst(parts[0], sep, Join(parts[1..], sep));
      assert [parts[0]] + parts[1..] == parts;
    }
  }

  /** A trimmed string with exactly one space splits into two non-empty
      words around it. */
  lemma SplitTwoWords(t: string)
    requires NoEdgeSpace(t)
    requires |Split(t, ' ')| == 2
    ensures var parts := Split(t, ' ');
            parts[0] != [] && parts[1] != [] && t == parts[0] + [' '] + parts[1]
  {
    var parts := Split(t, ' ');
    JoinSplit(t, ' ');
    assert Join(parts, ' ') == parts[0] + [' '] + parts[1];
    assert IsSpace(' ');
  }

  // ---------------------------------------------------------------------
  // cleanString

  /** cleanString: trim the name; if it is two words separated by one
      space, keep the first character of each; upper-case what is left,
      trimming it once more. The result has no white space at either end
      and no lower-case ASCII letter. */
  function CleanString(incoming: string): (r: string)
    ensures NoEdgeSpace(r)
    ensures forall k | 0 <= k < |r| :: !IsLower(r[k])
  {
    var kept := Kept(incoming);
    ToUpperClean(kept);
    ToUpper(kept)
  }

  /** What cleanString keeps of a name, before upper-casing: the initials of
      two words, else the whole trimmed name, trimmed once more. */
  function Kept(incoming: string): (kept: string)
    ensures NoEdgeSpace(kept)
  {
    TrimSpace(Abbreviate(TrimSpace(incoming)))
  }

  /** The part of a trimmed name that is kept: the first character of each
      word when it is two words separated by one space, else all of it. */
  function Abbreviate(trimmed: string): string
    requires NoEdgeSpace(trimmed)
  {
    var parts := Split(trimmed, ' ');
    if |parts| == 2 then SplitTwoWords(trimmed); [parts[0][0], parts[1][0]]
    else trimmed
  }

  /** Upper-casing keeps white space at the same places and leaves no
      lower-case letter. */
  lemma ToUpperClean(s: string)
    requires NoEdgeSpace(s)
    ensures NoEdgeSpace(ToUpper(s))
    ensures forall k | 0 <= k < |s| :: !IsLower(ToUpper(s)[k])
  {
    forall k | 0 <= k < |s|
      ensures !IsLower(ToUpper(s)[k]) && IsSpace(ToUpper(s)[k]) == IsSpace(s[k])
    {
      UpperCharKeepsSpace(s[k]);
    }
  }

  /** Two space-separated words give their upper-cased initials; the final
      trim only matters when the second word starts with other white space
      (a tab, say), which is then dropped. */
  lemma CleanStringInitials(incoming: string, i: nat)
    requires var t := TrimSpace(incoming); i < |t| && t[i] == ' ' && Count(t, ' ') == 1
    ensures var t := TrimSpace(incoming);
            0 < i < |t| - 1 &&
            CleanString(incoming) ==
              (if IsSpace(t[i + 1]) then [UpperChar(t[0])] else [UpperChar(t[0]), UpperChar(t[i + 1])])
  {
    var t := TrimSpace(incoming);
    KeptInitials(incoming, i);
    ToUpperShort(t[0], t[i + 1]);
    assert CleanString(incoming) == ToUpper(Kept(incoming));
  }

  lemma ToUpperShort(x: char, y: char)
    ensures ToUpper([x]) == [UpperChar(x)]
    ensures ToUpper([x, y]) == [UpperChar(x), UpperChar(y)]
  {
  }

  lemma KeptInitials(incoming: string, i: nat)
    requires var t := TrimSpace(incoming); i < |t| && t[i] == ' ' && Count(t, ' ') == 1
    ensures var t := TrimSpace(incoming);
            0 < i < |t| - 1 &&
            Kept(incoming) == if IsSpace(t[i + 1]) then [t[0]] else [t[0], t[i + 1]]
  {
    var t := TrimSpace(incoming);
    AbbreviateInitials(t, i);
    TrimSpacePair(t[0], t[i + 1]);
  }

  lemma AbbreviateInitials(t: string, i: nat)
    requires NoEdgeSpace(t)
    requires i < |t| && t[i] == ' ' && Count(t, ' ') == 1
    ensures 0 < i < |t| - 1 && Abbreviate(t) == [t[0], t[i + 1]]
  {
    var parts := Split(t, ' ');
    SplitTwoWords(t);
    var a, b := parts[0], parts[1];
    assert ' ' !in a && ' ' !in b;
    assert i == |a|;
    assert b[0] == t[i + 1];
  }

  /** Anything else is the whole trimmed name, upper-cased. */
  lemma CleanStringWhole(incoming: string)
    requires Count(TrimSpace(incoming), ' ') != 1
    ensures CleanString(incoming) == ToUpper(TrimSpace(incoming))
  {
    var t := TrimSpace(incoming);
    assert Abbreviate(t) == t;
    assert Kept(incoming) == t;
  }

  lemma {:induction false} CountToUpper(s: string)
    ensures Count(ToUpper(s), ' ') == Count(s, ' ')
    decreases |s|
  {
    if s != [] {
      CountToUpper(s[1..]);
      assert ToUpper(s)[1..] == ToUpper(s[1..]);
      UpperCharKeepsSpace(s[0]);
    }
  }

  /** A cleaned string never holds exactly one space, so cleaning it again
      does not abbreviate it. */
  lemma CleanStringSpaces(s: string)
    ensures Count(CleanString(s), ' ') != 1
  {
    var t := TrimSpace(s);
    if Count(t, ' ') == 1 {
      CountPositive(t, ' ');
      var i :| 0 <= i < |t| && t[i] == ' ';
      CleanStringInitials(s, i);
      InitialsHaveNoSpace(t[0], t[i + 1]);
    } else {
      CleanStringWhole(s);
      CountToUpper(t);
    }
  }

  /** The one or two upper-cased initials hold no space. */
  lemma InitialsHaveNoSpace(x: char, y: char)
    requires !IsSpace(x)
    ensures Count([UpperChar(x)], ' ') == 0
    ensures !IsSpace(y) ==> Count([UpperChar(x), UpperChar(y)], ' ') == 0
  {
    UpperCharKeepsSpace(x);
    UpperCharKeepsSpace(y);
    CountAbsent([UpperChar(x)], ' ');
    if !IsSpace(y) {
      CountAbsent([UpperChar(x), UpperChar(y)], ' ');
    }
  }

  /** A string that has no white space at its ends, no lower-case letter and
      not exactly one space is its own clean form. */
  lemma CleanStringFixed(c: string)
    requires NoEdgeSpace(c) && Count(c, ' ') != 1
    requires forall k | 0 <= k < |c| :: !IsLower(c[k])
    ensures CleanString(c) == c
  {
    assert TrimSpace(c) == c;
    CleanStringWhole(c);
    ToUpperFixed(c);
  }

  /** Cleaning a cleaned string changes nothing. */
  lemma CleanStringIdempotent(s: string)
    ensures CleanString(CleanString(s)) == CleanString(s)
  {
    CleanStringSpaces(s);
    CleanStringFixed(CleanString(s));
  }

  lemma {:induction false} CountAbsent(s: string, c: char)
    requires c !in s
    ensures Count(s, c) == 0
    decreases |s|
  {
    if s != [] {
      CountAbsent(s[1..], c);
    }
  }

  lemma {:induction false} CountPositive(s: string, c: char)
    requires Count(s, c) > 0
    ensures exists i | 0 <= i < |s| :: s[i] == c
    decreases |s|
  {
    if s[0] != c {
      CountPositive(s[1..], c);
      var i :| 0 <= i < |s[1..]| && s[1..][i] == c;
      assert s[i + 1] == c;
    }
  }
}
