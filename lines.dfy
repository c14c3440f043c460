/**
 * The line-level vocabulary of an M3U playlist: which lines are entry info,
 * player options, stream URLs or header metadata; Python's `str.strip()`;
 * the search for `group-title="..."` that the parser does with a regular
 * expression; and the newline-terminated serialisation of a list of lines.
 */
module Lines {
  import opened Wrappers

  predicate StartsWith(s: string, prefix: string)
  {
    |prefix| <= |s| && s[..|prefix|] == prefix
  }

  const InfoTag: string := "#EXTINF"
  const OptionTag: string := "#EXTVLCOPT"
  const UrlTag: string := "http"
  const HeaderTag: string := "#EXTM3U"
  const SeparatorTag: string := "#---"
  /** The literal part of the pattern `group-title="([^"]+)"` before the captured value. */
  const TitleOpen: string := "group-title=\""

  /** An `#EXTINF` entry-info line. */
  predicate IsInfo(line: string) { StartsWith(line, InfoTag) }

  /** A line the parser appends to the open group: entry info, a player option or a stream URL. */
  predicate IsKept(line: string)
  {
    StartsWith(line, InfoTag) || StartsWith(line, OptionTag) || StartsWith(line, UrlTag)
  }

  /** A header or separator line, the only lines the metadata extractor keeps. */
  predicate IsMetadata(line: string)
  {
    StartsWith(line, HeaderTag) || StartsWith(line, SeparatorTag)
  }

  /** No line is both metadata and a line the parser keeps. */
  lemma MetadataIsNotKept(line: string)
    requires IsMetadata(line)
    ensures !IsKept(line)
  {
    if StartsWith(line, HeaderTag) {
      assert line[..|HeaderTag|][0] == '#' && line[..|HeaderTag|][4] == 'M';
      assert !StartsWith(line, InfoTag) && !StartsWith(line, OptionTag) by {
        assert InfoTag[4] == 'I' && OptionTag[4] == 'V';
      }
    } else {
      assert line[..|SeparatorTag|][0] == '#' && line[..|SeparatorTag|][1] == '-';
      assert !StartsWith(line, InfoTag) && !StartsWith(line, OptionTag) by {
        assert InfoTag[1] == 'E' && OptionTag[1] == 'E';
      }
    }
    assert !StartsWith(line, UrlTag) by { assert UrlTag[0] == 'h'; }
  }

  // ---------------------------------------------------------------------------
  // Whitespace stripping (`str.strip()`)

  /**
   * The characters for which Python's `str.isspace()` holds: the ASCII
   * whitespace and separators, next line, no-break space, the Unicode space
   * separators, and the line and paragraph separators.
   */
  predicate IsSpace(c: char)
  {
    || c == ' ' || ('\t' <= c <= '\r') || ('\U{1C}' <= c <= '\U{1F}')
    || c == '\U{85}' || c == '\U{A0}' || c == '\U{1680}'
    || ('\U{2000}' <= c <= '\U{200A}') || c == '\U{2028}' || c == '\U{2029}'
    || c == '\U{202F}' || c == '\U{205F}' || c == '\U{3000}'
  }

  /** The first position at or after `i` that is not whitespace, or `|s|`. */
  function SkipSpaces(s: string, i: nat): (q: nat)
    requires i <= |s|
    decreases |s| - i
    ensures i <= q <= |s|
    ensures forall p :: i <= p < q ==> IsSpace(s[p])
    ensures q < |s| ==> !IsSpace(s[q])
  {
    if i == |s| || !IsSpace(s[i]) then i else SkipSpaces(s, i + 1)
  }

  /** The end of `s[..j]` once its trailing whitespace is cut off. */
  function SkipSpacesBack(s: string, j: nat): (q: nat)
    requires j <= |s|
    ensures q <= j
    ensures forall p :: q <= p < j ==> IsSpace(s[p])
    ensures 0 < q ==> !IsSpace(s[q - 1])
  {
    if j == 0 || !IsSpace(s[j - 1]) then j else SkipSpacesBack(s, j - 1)
  }

  function TrimLeft(s: string): string
  {
    s[SkipSpaces(s, 0)..]
  }

  function TrimRight(s: string): string
  {
    s[..SkipSpacesBack(s, |s|)]
  }

  /** `r` is the slice of `s` starting at `a` and everything around it is whitespace. */
  ghost predicate StripsTo(s: string, a: int, r: string)
  {
    && 0 <= a && a + |r| <= |s| && s[a..a + |r|] == r
    && (forall i :: 0 <= i < a ==> IsSpace(s[i]))
    && (forall i :: a + |r| <= i < |s| ==> IsSpace(s[i]))
  }

  /** `s.strip()`. */
  function Strip(s: string): string
  {
    TrimRight(TrimLeft(s))
  }

  /** `s.strip()` is the slice of `s` left after removing leading and trailing whitespace. */
  lemma StripSpec(s: string)
    ensures exists a :: StripsTo(s, a, Strip(s))
    ensures Strip(s) != [] ==> !IsSpace(Strip(s)[0]) && !IsSpace(Strip(s)[|Strip(s)| - 1])
  {
    var a := SkipSpaces(s, 0);
    var t := s[a..];
    var b := SkipSpacesBack(t, |t|);
    var r := t[..b];
    assert r == Strip(s);
    assert s[a..a + |r|] == r;
    forall i | a + |r| <= i < |s| ensures IsSpace(s[i]) {
      assert s[i] == t[i - a];
    }
    if r != [] {
      assert r[0] == s[a];
      assert r[|r| - 1] == t[b - 1];
    }
    assert StripsTo(s, a, r);
  }

  // ---------------------------------------------------------------------------
  // The group-title search (`re.search(r'group-title="([^"]+)"', line)`)

  /** The first index at or after `j` holding `c`, or `|s|` when there is none. */
  function Find(s: string, j: nat, c: char): (q: nat)
    requires j <= |s|
    decreases |s| - j
    ensures j <= q <= |s|
    ensures forall p :: j <= p < q ==> s[p] != c
    ensures q < |s| ==> s[q] == c
  {
    if j == |s| || s[j] == c then j else Find(s, j + 1, c)
  }

  /**
   * The pattern matches at position `i` with captured value `v`: the text
   * `group-title="`, then one or more characters other than `"`, then `"`.
   */
  ghost predicate TitleOccurs(line: string, i: int, v: string)
  {
    && 0 <= i && i + |TitleOpen| + |v| < |line|
    && line[i..i + |TitleOpen|] == TitleOpen
    && v != [] && '"' !in v
    && line[i + |TitleOpen|..i + |TitleOpen| + |v|] == v
    && line[i + |TitleOpen| + |v|] == '"'
  }

  /** The value the pattern captures when the match is anchored at `i`, if it matches there. */
  function TitleAt(line: string, i: nat): Option<string>
    requires i <= |line|
  {
    var j := i + |TitleOpen|;
    if j <= |line| && line[i..j] == TitleOpen then
      var q := Find(line, j, '"');
      if j < q < |line| then Some(line[j..q]) else None
    else
      None
  }

  /** An anchored match succeeds exactly when the pattern occurs there, and captures that value. */
  lemma TitleAtMatches(line: string, i: nat, v: string)
    requires i <= |line|
    ensures TitleAt(line, i) == Some(v) <==> TitleOccurs(line, i, v)
  {
    var j := i + |TitleOpen|;
    if TitleAt(line, i) == Some(v) {
      var q := Find(line, j, '"');
      assert v == line[j..q];
      forall p | 0 <= p < |v| ensures v[p] != '"' {
        assert v[p] == line[j + p];
      }
    }
    if TitleOccurs(line, i, v) {
      var q := Find(line, j, '"');
      assert q == j + |v|;
      assert line[j..q] == v;
    }
  }

  /** The leftmost match at or after position `i`. */
  function SearchTitle(line: string, i: nat): Option<string>
    requires i <= |line|
    decreases |line| - i
  {
    match TitleAt(line, i)
    case Some(v) => Some(v)
    case None => if i == |line| then None else SearchTitle(line, i + 1)
  }

  /** `re.search(r'group-title="([^"]+)"', line)`, giving the captured value. */
  function FindTitle(line: string): Option<string>
  {
    SearchTitle(line, 0)
  }

  lemma {:induction false} SearchTitleSpec(line: string, i: nat)
    requires i <= |line|
    decreases |line| - i
    ensures SearchTitle(line, i).Some? ==>
      exists p :: i <= p && TitleOccurs(line, p, SearchTitle(line, i).value)
                  && forall p', v' :: i <= p' < p ==> !TitleOccurs(line, p', v')
    ensures SearchTitle(line, i).None? ==> forall p, v :: i <= p ==> !TitleOccurs(line, p, v)
  {
    match TitleAt(line, i)
    case Some(v) =>
      TitleAtMatches(line, i, v);
      assert TitleOccurs(line, i, v);
    case None =>
      NoTitleAt(line, i);
      if i < |line| {
        var r := SearchTitle(line, i + 1);
        SearchTitleSpec(line, i + 1);
        assert SearchTitle(line, i) == r;
        if r.Some? {
          var p :| i + 1 <= p && TitleOccurs(line, p, r.value)
                   && forall p', v' :: i + 1 <= p' < p ==> !TitleOccurs(line, p', v');
          assert forall p', v' :: i <= p' < p ==> !TitleOccurs(line, p', v');
        }
      }
  }

  lemma NoTitleAt(line: string, i: nat)
    requires i <= |line| && TitleAt(line, i).None?
    ensures forall v :: !TitleOccurs(line, i, v)
  {
    forall v ensures !TitleOccurs(line, i, v) {
      TitleAtMatches(line, i, v);
    }
  }

  /**
   * The regular-expression search finds a match exactly when the pattern
   * occurs somewhere in the line, and captures the value of the leftmost
   * occurrence.
   */
  lemma FindTitleSpec(line: string)
    ensures FindTitle(line).Some? <==> exists p, v :: TitleOccurs(line, p, v)
    ensures FindTitle(line).Some? ==>
      exists p :: TitleOccurs(line, p, FindTitle(line).value)
                  && forall p', v' :: 0 <= p' < p ==> !TitleOccurs(line, p', v')
  {
    SearchTitleSpec(line, 0);
  }

  /**
   * The group name an `#EXTINF` line announces: its stripped `group-title`
   * value; None for other lines and for info lines without the attribute.
   */
  function LineName(line: string): Option<string>
  {
    if IsInfo(line) then
      match FindTitle(line)
      case None => None
      case Some(t) => Some(Strip(t))
    else
      None
  }

  // ---------------------------------------------------------------------------
  // Output text

  /** The text written by `f.write(f"{line}\n")` for each line in turn. */
  function Serialise(lines: seq<string>): string
  {
    if lines == [] then "" else lines[0] + "\n" + Serialise(lines[1..])
  }

  lemma {:induction false} SerialiseAppend(a: seq<string>, b: seq<string>)
    ensures Serialise(a + b) == Serialise(a) + Serialise(b)
  {
    if a == [] {
      assert a + b == b;
    } else {
      assert (a + b)[0] == a[0];
      assert (a + b)[1..] == a[1..] + b;
      SerialiseAppend(a[1..], b);
    }
  }

  lemma SerialiseSnoc(lines: seq<string>, line: string)
    ensures Serialise(lines + [line]) == Serialise(lines) + line + "\n"
  {
    SerialiseAppend(lines, [line]);
    assert Serialise([line]) == line + "\n" + Serialise([]);
  }

  /**
   * The characters `str.splitlines()` treats as line boundaries: line feed,
   * carriage return, vertical tab, form feed, the file/group/record
   * separators, next line, line separator and paragraph separator.
   */
  predicate IsBreak(c: char)
  {
    c == '\n' || c == '\r' || c == '\U{0B}' || c == '\U{0C}'
    || c == '\U{1C}' || c == '\U{1D}' || c == '\U{1E}'
    || c == '\U{85}' || c == '\U{2028}' || c == '\U{2029}'
  }

  /** The first line boundary at or after `j`, or `|s|` if there is none. */
  function FindBreak(s: string, j: nat): (q: nat)
    requires j <= |s|
    decreases |s| - j
    ensures j <= q <= |s|
    ensures forall p :: j <= p < q ==> !IsBreak(s[p])
    ensures q < |s| ==> IsBreak(s[q])
  {
    if j == |s| || IsBreak(s[j]) then j else FindBreak(s, j + 1)
  }

  /**
   * `str.splitlines()`: the text cut at every line boundary, `\r\n` counting
   * as one boundary, with no empty piece after a final boundary.
   */
  function SplitLines(text: string): seq<string>
    decreases |text|
  {
    if text == [] then []
    else
      var e := FindBreak(text, 0);
      if e == |text| then [text]
      else
        var next := if text[e] == '\r' && e + 1 < |text| && text[e + 1] == '\n' then e + 2 else e + 1;
        [text[..e]] + SplitLines(text[next..])
  }

  predicate NoBreak(line: string)
  {
    forall i :: 0 <= i < |line| ==> !IsBreak(line[i])
  }

  /** No piece of a split text contains a line boundary. */
  lemma {:induction false} SplitLinesNoBreak(text: string)
    decreases |text|
    ensures forall l :: l in SplitLines(text) ==> NoBreak(l)
  {
    if text != [] {
      var e := FindBreak(text, 0);
      assert NoBreak(text[..e]);
      if e < |text| {
        var next := if text[e] == '\r' && e + 1 < |text| && text[e + 1] == '\n' then e + 2 else e + 1;
        SplitLinesNoBreak(text[next..]);
      }
    }
  }

  /** Reading the written text back line by line gives the lines that were written. */
  lemma {:induction false} SplitSerialise(lines: seq<string>)
    requires forall l :: l in lines ==> NoBreak(l)
    ensures SplitLines(Serialise(lines)) == lines
  {
    if lines != [] {
      var l := lines[0];
      var rest := Serialise(lines[1..]);
      var t := l + "\n" + rest;
      assert NoBreak(l) by { assert l in lines; }
      assert Serialise(lines) == t;
      forall p | 0 <= p < |l| ensures !IsBreak(t[p]) {
        assert t[p] == l[p];
      }
      assert t[|l|] == '\n';
      assert FindBreak(t, 0) == |l|;
      assert t[..|l|] == l;
      assert t[|l| + 1..] == rest;
      SplitSerialise(lines[1..]);
    }
  }
}
