/**
 * The group parser: one scan over the playlist's lines that keeps the
 * current group name and a buffer of lines, and stores the buffer under the
 * group's name each time the `group-title` changes and once more at the end.
 *
 * `Scan` and `Parse` are the specification, one `Step` per line; `ParseM3U`
 * is the loop that updates a `GroupTable` in place. The lemmas state what a
 * parsed map contains: its keys, the shape of every stored group, the lines
 * dropped before the first titled entry, and the "last run wins" behaviour
 * for a name that recurs non-contiguously.
 */
module Parser {
  import opened Wrappers
  import opened Lines
  import opened GroupMaps

  /** The loop's variables: `current_group`, `group_content` and `groups`. */
  datatype ScanState = ScanState(current: Option<string>, buffer: seq<string>, groups: GroupMap)

  const Start: ScanState := ScanState(None, [], Empty)

  /** Python truthiness of `current_group`: present and not the empty string. */
  predicate Truthy(name: Option<string>)
  {
    name.Some? && name.value != ""
  }

  /** `if current_group and group_content: groups[current_group] = group_content` */
  function Flush(s: ScanState): (r: GroupMap)
    requires ValidMap(s.groups)
    ensures ValidMap(r)
  {
    if Truthy(s.current) && s.buffer != [] then Put(s.groups, s.current.value, s.buffer)
    else s.groups
  }

  /** One iteration of the loop over the lines. */
  function Step(s: ScanState, line: string): (r: ScanState)
    requires ValidMap(s.groups)
    ensures ValidMap(r.groups)
  {
    if StartsWith(line, InfoTag) then
      var s1 :=
        match FindTitle(line)
        case None => s
        case Some(t) =>
          var name := Strip(t);
          if Some(name) != s.current then ScanState(Some(name), [], Flush(s)) else s;
      s1.(buffer := s1.buffer + [line])
    else if StartsWith(line, OptionTag) || StartsWith(line, UrlTag) then
      s.(buffer := s.buffer + [line])
    else
      s
  }

  /** The state after the loop has processed `lines`, starting from `s`. */
  function Scan(s: ScanState, lines: seq<string>): (r: ScanState)
    requires ValidMap(s.groups)
    ensures ValidMap(r.groups)
  {
    if lines == [] then s
    else Step(Scan(s, lines[..|lines| - 1]), lines[|lines| - 1])
  }

  /** `parse_m3u` on a playlist already split into lines. */
  function Parse(lines: seq<string>): (r: GroupMap)
    ensures ValidMap(r)
  {
    Flush(Scan(Start, lines))
  }

  /** The lines of `lines` that the parser can retain, in order. */
  function Kept(lines: seq<string>): (r: seq<string>)
    ensures forall l :: l in r ==> IsKept(l) && l in lines
  {
    if lines == [] then []
    else
      var last := lines[|lines| - 1];
      Kept(lines[..|lines| - 1]) + (if IsKept(last) then [last] else [])
  }

  // ---------------------------------------------------------------------------
  // A step in terms of the line's group name

  /**
   * A line that names a group other than the current one opens that group
   * (storing the old buffer first); any other line is appended when it is
   * an info, option or URL line and dropped otherwise.
   */
  lemma StepShape(s: ScanState, l: string)
    requires ValidMap(s.groups)
    ensures LineName(l).Some? && LineName(l) != s.current ==>
              Step(s, l) == ScanState(LineName(l), [l], Flush(s))
    ensures !(LineName(l).Some? && LineName(l) != s.current) && IsKept(l) ==>
              Step(s, l) == s.(buffer := s.buffer + [l])
    ensures !IsKept(l) ==> Step(s, l) == s
  {
  }

  lemma ScanOne(s: ScanState, l: string)
    requires ValidMap(s.groups)
    ensures Scan(s, [l]) == Step(s, l)
  {
    assert [l][..0] == [];
  }

  lemma {:induction false} ScanAppend(s: ScanState, xs: seq<string>, ys: seq<string>)
    requires ValidMap(s.groups)
    ensures Scan(s, xs + ys) == Scan(Scan(s, xs), ys)
  {
    if ys == [] {
      assert xs + ys == xs;
    } else {
      var init := ys[..|ys| - 1];
      ScanAppend(s, xs, init);
      assert (xs + ys)[..|xs + ys| - 1] == xs + init;
      assert (xs + ys)[|xs + ys| - 1] == ys[|ys| - 1];
    }
  }

  lemma ScanCons(s: ScanState, l: string, rest: seq<string>)
    requires ValidMap(s.groups)
    ensures Scan(s, [l] + rest) == Scan(Step(s, l), rest)
  {
    ScanAppend(s, [l], rest);
    ScanOne(s, l);
  }

  lemma {:induction false} KeptAll(lines: seq<string>)
    requires forall l :: l in lines ==> IsKept(l)
    ensures Kept(lines) == lines
  {
    if lines != [] {
      KeptAll(lines[..|lines| - 1]);
      assert lines[..|lines| - 1] + [lines[|lines| - 1]] == lines;
    }
  }

  lemma {:induction false} KeptNone(lines: seq<string>)
    requires forall l :: l in lines ==> !IsKept(l)
    ensures Kept(lines) == []
  {
    if lines != [] {
      KeptNone(lines[..|lines| - 1]);
    }
  }

  /** Lines that name no group, or only the current one, just extend the buffer. */
  lemma {:induction false} ScanWithin(c: Option<string>, b: seq<string>, g: GroupMap, body: seq<string>)
    requires ValidMap(g)
    requires forall l :: l in body ==> LineName(l).Some? ==> LineName(l) == c
    ensures Scan(ScanState(c, b, g), body) == ScanState(c, b + Kept(body), g)
  {
    if body == [] {
      assert b + [] == b;
    } else {
      var init := body[..|body| - 1];
      var l := body[|body| - 1];
      ScanWithin(c, b, g, init);
      StepShape(ScanState(c, b + Kept(init), g), l);
      assert b + Kept(init) + [l] == b + (Kept(init) + [l]);
    }
  }

  /**
   * An info line naming `n` while another group (or none) is open, followed
   * by lines naming no group or `n`, leaves group `n` open with those lines.
   */
  lemma OpenRun(s: ScanState, n: string, e: string, body: seq<string>)
    requires ValidMap(s.groups)
    requires LineName(e) == Some(n) && s.current != Some(n)
    requires forall l :: l in body ==> LineName(l).Some? ==> LineName(l) == Some(n)
    ensures Scan(s, [e] + body) == ScanState(Some(n), [e] + Kept(body), Flush(s))
  {
    ScanCons(s, e, body);
    StepShape(s, e);
    ScanWithin(Some(n), [e], Flush(s), body);
  }

  // ---------------------------------------------------------------------------
  // What a parsed map holds

  /** `ls` is one run of group `n`: an info line naming `n`, then lines naming no other group. */
  ghost predicate IsRun(n: string, ls: seq<string>)
  {
    && |ls| > 0 && LineName(ls[0]) == Some(n)
    && forall l :: l in ls ==> IsKept(l) && (LineName(l).Some? ==> LineName(l) == Some(n))
  }

  /** A stored group: a run under a non-empty name. */
  ghost predicate IsGroup(n: string, ls: seq<string>)
  {
    n != "" && IsRun(n, ls)
  }

  /** Every stored group is a run of its own name. */
  ghost predicate WellFormed(m: GroupMap)
  {
    ValidMap(m) && forall k :: k in m.values ==> IsGroup(k, m.values[k])
  }

  ghost predicate Drawn(ls: seq<string>, seen: seq<string>)
  {
    forall l :: l in ls ==> l in seen
  }

  /** What holds of the loop's state after it has seen the lines `seen`. */
  ghost predicate ScanInv(s: ScanState, seen: seq<string>)
  {
    && WellFormed(s.groups)
    && (forall k :: k in s.groups.values ==> Drawn(s.groups.values[k], seen))
    && (s.current.Some? ==> IsRun(s.current.value, s.buffer) && Drawn(s.buffer, seen))
    && (forall i :: 0 <= i < |seen| && Truthy(LineName(seen[i])) ==>
          LineName(seen[i]).value in s.groups.values || LineName(seen[i]) == s.current)
  }

  lemma FlushInv(s: ScanState, seen: seq<string>)
    requires ScanInv(s, seen)
    ensures WellFormed(Flush(s))
    ensures forall k :: k in Flush(s).values ==> Drawn(Flush(s).values[k], seen)
    ensures forall k :: k in s.groups.values ==> k in Flush(s).values
    ensures Truthy(s.current) ==> s.current.value in Flush(s).values
  {
    if Truthy(s.current) && s.buffer != [] {
      var c := s.current.value;
      PutSemantics(s.groups, c, s.buffer);
      var p := Put(s.groups, c, s.buffer);
      forall k | k in p.values ensures IsGroup(k, p.values[k]) && Drawn(p.values[k], seen) {
        if k != c {
          assert k in s.groups.values;
        }
      }
    }
  }

  lemma StepInv(s: ScanState, seen: seq<string>, l: string)
    requires ScanInv(s, seen)
    ensures ScanInv(Step(s, l), seen + [l])
  {
    StepShape(s, l);
    if LineName(l).Some? && LineName(l) != s.current {
      OpenInv(s, seen, l);
    } else if IsKept(l) {
      AppendInv(s, seen, l);
    } else {
      DropInv(s, seen, l);
    }
  }

  lemma OpenInv(s: ScanState, seen: seq<string>, l: string)
    requires ScanInv(s, seen) && LineName(l).Some?
    ensures ScanInv(ScanState(LineName(l), [l], Flush(s)), seen + [l])
  {
    FlushInv(s, seen);
    var seen' := seen + [l];
    var s' := ScanState(LineName(l), [l], Flush(s));
    assert IsKept(l);
    forall i | 0 <= i < |seen'| && Truthy(LineName(seen'[i]))
      ensures LineName(seen'[i]).value in s'.groups.values || LineName(seen'[i]) == s'.current
    {
      if i < |seen| {
        assert seen'[i] == seen[i];
      }
    }
  }

  lemma AppendInv(s: ScanState, seen: seq<string>, l: string)
    requires ScanInv(s, seen) && IsKept(l)
    requires LineName(l).Some? ==> LineName(l) == s.current
    ensures ScanInv(s.(buffer := s.buffer + [l]), seen + [l])
  {
    var seen' := seen + [l];
    var s' := s.(buffer := s.buffer + [l]);
    forall i | 0 <= i < |seen'| && Truthy(LineName(seen'[i]))
      ensures LineName(seen'[i]).value in s'.groups.values || LineName(seen'[i]) == s'.current
    {
      if i < |seen| {
        assert seen'[i] == seen[i];
      }
    }
  }

  lemma DropInv(s: ScanState, seen: seq<string>, l: string)
    requires ScanInv(s, seen) && !IsKept(l)
    ensures ScanInv(s, seen + [l])
  {
    var seen' := seen + [l];
    assert LineName(l) == None;
    forall i | 0 <= i < |seen'| && Truthy(LineName(seen'[i]))
      ensures LineName(seen'[i]).value in s.groups.values || LineName(seen'[i]) == s.current
    {
      if i < |seen| {
        assert seen'[i] == seen[i];
      }
    }
  }

  lemma {:induction false} ScanInvariant(lines: seq<string>)
    ensures ScanInv(Scan(Start, lines), lines)
  {
    if lines != [] {
      var init := lines[..|lines| - 1];
      ScanInvariant(init);
      StepInv(Scan(Start, init), init, lines[|lines| - 1]);
      assert init + [lines[|lines| - 1]] == lines;
    }
  }

  /**
   * Every parsed group is non-empty, starts with an `#EXTINF` line whose
   * stripped `group-title` is the group's name, holds only info, option and
   * URL lines, and names no other group; every stored line comes from the
   * input; and every non-empty name some info line announces is stored.
   */
  lemma ParseWellFormed(lines: seq<string>)
    ensures WellFormed(Parse(lines))
    ensures forall k, l :: k in Parse(lines).values && l in Parse(lines).values[k] ==> l in lines
    ensures forall i :: 0 <= i < |lines| && Truthy(LineName(lines[i])) ==>
              LineName(lines[i]).value in Parse(lines).values
  {
    ScanInvariant(lines);
    FlushInv(Scan(Start, lines), lines);
  }

  /**
   * The keys of the parsed map are exactly the non-empty stripped
   * `group-title` values found on the input's `#EXTINF` lines.
   */
  lemma ParseKeys(lines: seq<string>)
    ensures forall k :: k in Parse(lines).values <==>
              k != "" && exists i :: 0 <= i < |lines| && LineName(lines[i]) == Some(k)
  {
    ParseWellFormed(lines);
    var p := Parse(lines);
    forall k | k in p.values
      ensures exists i :: 0 <= i < |lines| && LineName(lines[i]) == Some(k)
    {
      var first := p.values[k][0];
      assert first in p.values[k];
      assert first in lines;
      var i :| 0 <= i < |lines| && lines[i] == first;
      assert LineName(lines[i]) == Some(k);
    }
    forall k | k != "" && exists i :: 0 <= i < |lines| && LineName(lines[i]) == Some(k)
      ensures k in p.values
    {
      var i :| 0 <= i < |lines| && LineName(lines[i]) == Some(k);
      assert Truthy(LineName(lines[i]));
    }
  }

  // ---------------------------------------------------------------------------
  // Composition: parsing a concatenation

  /** The scan's groups only ever receive assignments, so a start from `g` is `g` overridden. */
  lemma {:induction false} ScanRebase(c: Option<string>, b: seq<string>, g: GroupMap, zs: seq<string>)
    requires ValidMap(g)
    ensures Scan(ScanState(c, b, g), zs).current == Scan(ScanState(c, b, Empty), zs).current
    ensures Scan(ScanState(c, b, g), zs).buffer == Scan(ScanState(c, b, Empty), zs).buffer
    ensures Scan(ScanState(c, b, g), zs).groups == Override(g, Scan(ScanState(c, b, Empty), zs).groups)
  {
    if zs == [] {
      OverrideEmpty(g);
    } else {
      var init := zs[..|zs| - 1];
      var l := zs[|zs| - 1];
      ScanRebase(c, b, g, init);
      var s1 := Scan(ScanState(c, b, g), init);
      var s2 := Scan(ScanState(c, b, Empty), init);
      StepShape(s1, l);
      StepShape(s2, l);
      FlushRebase(s1, s2, g);
    }
  }

  lemma FlushRebase(s1: ScanState, s2: ScanState, g: GroupMap)
    requires ValidMap(g) && ValidMap(s2.groups)
    requires s1.current == s2.current && s1.buffer == s2.buffer && s1.groups == Override(g, s2.groups)
    ensures Flush(s1) == Override(g, Flush(s2))
  {
    if Truthy(s1.current) && s1.buffer != [] {
      OverridePut(g, s2.groups, s1.current.value, s1.buffer);
    }
  }

  /** A line naming a group other than the open one flushes and opens that group with the line. */
  lemma ScanOpens(s: ScanState, y: string, rest: seq<string>)
    requires ValidMap(s.groups) && LineName(y).Some? && LineName(y) != s.current
    ensures Scan(s, [y] + rest) == Scan(ScanState(LineName(y), [y], Flush(s)), rest)
  {
    ScanCons(s, y, rest);
    StepShape(s, y);
  }

  /**
   * When `ys` starts with an info line naming a group other than the one
   * open at the end of `xs`, parsing `xs + ys` is parsing `xs` and then
   * applying, in order, the assignments parsing `ys` makes.
   */
  lemma ParseAppend(xs: seq<string>, ys: seq<string>)
    requires ys != [] && LineName(ys[0]).Some? && LineName(ys[0]) != Scan(Start, xs).current
    ensures Parse(xs + ys) == Override(Parse(xs), Parse(ys))
  {
    var s := Scan(Start, xs);
    var y := ys[0];
    var rest := ys[1..];
    var n := LineName(y);
    assert ys == [y] + rest;
    var a := ScanState(n, [y], Flush(s));
    var b := ScanState(n, [y], Empty);
    ScanAppend(Start, xs, ys);
    ScanOpens(s, y, rest);
    ScanOpens(Start, y, rest);
    ScanRebase(n, [y], Flush(s), rest);
    FlushRebase(Scan(a, rest), Scan(b, rest), Flush(s));
  }

  /**
   * Recurring group names: if the lines after `xs` hold one run of group `n`
   * (an info line `e` naming it, then `body`, which names no other group),
   * that run is not a continuation of a run open at the end of `xs`, and `n`
   * is not named again afterwards, then the parsed lines of `n` are exactly
   * that run's retained lines; whatever `xs` held under `n` is lost.
   */
  lemma LastRunWins(xs: seq<string>, n: string, e: string, body: seq<string>, zs: seq<string>)
    requires n != "" && LineName(e) == Some(n) && Scan(Start, xs).current != Some(n)
    requires forall l :: l in body ==> LineName(l).Some? ==> LineName(l) == Some(n)
    requires zs == [] || LineName(zs[0]).Some?
    requires forall l :: l in zs ==> LineName(l) != Some(n)
    ensures n in Parse(xs + [e] + body + zs).values
    ensures Parse(xs + [e] + body + zs).values[n] == [e] + Kept(body)
    ensures Parse(xs).keys <= Parse(xs + [e] + body + zs).keys
    ensures n !in Parse(xs).values ==>
              |Parse(xs).keys| < |Parse(xs + [e] + body + zs).keys| &&
              Parse(xs + [e] + body + zs).keys[|Parse(xs).keys|] == n
  {
    var a := xs + ([e] + body);
    RunRegroup(xs, e, body, zs);
    LastRunValue(xs, n, e, body, zs);
    ParseOpenRun(xs, n, e, body);
    LastRunPosition(xs, a, zs, n, [e] + Kept(body));
  }

  lemma RunRegroup(xs: seq<string>, e: string, body: seq<string>, zs: seq<string>)
    ensures xs + [e] + body + zs == xs + ([e] + body) + zs
  {
  }

  /** The value half of `LastRunWins`, over `xs + ([e] + body)` followed by `zs`. */
  lemma LastRunValue(xs: seq<string>, n: string, e: string, body: seq<string>, zs: seq<string>)
    requires n != "" && LineName(e) == Some(n) && Scan(Start, xs).current != Some(n)
    requires forall l :: l in body ==> LineName(l).Some? ==> LineName(l) == Some(n)
    requires zs == [] || LineName(zs[0]).Some?
    requires forall l :: l in zs ==> LineName(l) != Some(n)
    ensures n in Parse(xs + ([e] + body) + zs).values
    ensures Parse(xs + ([e] + body) + zs).values[n] == [e] + Kept(body)
  {
    var a := xs + ([e] + body);
    var v := [e] + Kept(body);
    ParseOpenRun(xs, n, e, body);
    PutSemantics(Parse(xs), n, v);
    if zs == [] {
      assert a + zs == a;
    } else {
      assert LineName(zs[0]) != Some(n) by { assert zs[0] in zs; }
      ParseAppend(a, zs);
      assert n !in Parse(zs).values by { ParseKeys(zs); }
      OverrideKeeps(Parse(a), Parse(zs), n);
    }
  }

  /** Keys before a run keep their places; a name new at the run is the next key. */
  lemma LastRunPosition(xs: seq<string>, a: seq<string>, zs: seq<string>, n: string, v: seq<string>)
    requires Parse(a) == Put(Parse(xs), n, v)
    ensures Parse(xs).keys <= Parse(a + zs).keys
    ensures n !in Parse(xs).values ==>
              |Parse(xs).keys| < |Parse(a + zs).keys| && Parse(a + zs).keys[|Parse(xs).keys|] == n
  {
    PutSemantics(Parse(xs), n, v);
    ParseKeysPrefix(a, zs);
  }

  /** Appending lines never moves or drops a key of the parsed map. */
  lemma ParseKeysPrefix(xs: seq<string>, ys: seq<string>)
    ensures Parse(xs).keys <= Parse(xs + ys).keys
  {
    ParseKeyOrder(xs);
    ParseKeyOrder(xs + ys);
    FirstNamesPrefix(xs, ys);
  }

  /** A run of `n` that does not continue an open run of `n` assigns its retained lines to `n`. */
  lemma ParseOpenRun(xs: seq<string>, n: string, e: string, body: seq<string>)
    requires n != "" && LineName(e) == Some(n) && Scan(Start, xs).current != Some(n)
    requires forall l :: l in body ==> LineName(l).Some? ==> LineName(l) == Some(n)
    ensures Scan(Start, xs + ([e] + body)).current == Some(n)
    ensures Parse(xs + ([e] + body)) == Put(Parse(xs), n, [e] + Kept(body))
  {
    ScanAppend(Start, xs, [e] + body);
    OpenRun(Scan(Start, xs), n, e, body);
  }

  /** `Flush` of two scans that differ only in the buffer of an unnamed group agrees. */
  lemma {:induction false} ScanUnnamed(b1: seq<string>, b2: seq<string>, g: GroupMap, zs: seq<string>)
    requires ValidMap(g)
    ensures var s1 := Scan(ScanState(None, b1, g), zs);
            var s2 := Scan(ScanState(None, b2, g), zs);
            s1 == s2 || (s1.current == None && s2.current == None && s1.groups == s2.groups)
  {
    if zs != [] {
      var init := zs[..|zs| - 1];
      ScanUnnamed(b1, b2, g, init);
      StepShape(Scan(ScanState(None, b1, g), init), zs[|zs| - 1]);
      StepShape(Scan(ScanState(None, b2, g), init), zs[|zs| - 1]);
    }
  }

  /**
   * Lines before the first `#EXTINF` line with a `group-title` are never
   * stored: dropping them does not change the parse.
   */
  lemma PrefixDiscarded(pre: seq<string>, rest: seq<string>)
    requires forall l :: l in pre ==> LineName(l) == None
    ensures Parse(pre + rest) == Parse(rest)
  {
    ScanWithin(None, [], Empty, pre);
    ScanAppend(Start, pre, rest);
    ScanUnnamed([] + Kept(pre), [], Empty, rest);
  }

  // ---------------------------------------------------------------------------
  // Key order

  /** The truthy group names of `lines`, each once, in order of first occurrence. */
  function FirstNames(lines: seq<string>): seq<string>
  {
    if lines == [] then []
    else
      var seen := FirstNames(lines[..|lines| - 1]);
      var n := LineName(lines[|lines| - 1]);
      if Truthy(n) && n.value !in seen then seen + [n.value] else seen
  }

  lemma {:induction false} FirstNamesPrefix(xs: seq<string>, ys: seq<string>)
    ensures FirstNames(xs) <= FirstNames(xs + ys)
  {
    if ys == [] {
      assert xs + ys == xs;
    } else {
      var init := ys[..|ys| - 1];
      FirstNamesPrefix(xs, init);
      assert (xs + ys)[..|xs + ys| - 1] == xs + init;
    }
  }

  /**
   * What the scan keeps about key order: an open truthy group has a
   * non-empty buffer and a name already seen, and flushing now would give
   * the names seen so far in order of first occurrence.
   */
  ghost predicate OrderInv(s: ScanState, seen: seq<string>)
  {
    && ValidMap(s.groups)
    && (Truthy(s.current) ==> s.buffer != [] && s.current.value in FirstNames(seen))
    && Flush(s).keys == FirstNames(seen)
  }

  lemma StepOrder(s: ScanState, seen: seq<string>, l: string)
    requires OrderInv(s, seen)
    ensures OrderInv(Step(s, l), seen + [l])
  {
    var f := FirstNames(seen);
    assert (seen + [l])[..|seen|] == seen;
    assert FirstNames(seen + [l])
      == if Truthy(LineName(l)) && LineName(l).value !in f then f + [LineName(l).value] else f;
    StepShape(s, l);
    var n := LineName(l);
    if n.Some? && n != s.current {
      var g := Flush(s);
      assert n.value in g.values <==> n.value in f;
      if Truthy(n) {
        PutSemantics(g, n.value, [l]);
      }
    } else if IsKept(l) && Truthy(s.current) {
      PutSemantics(s.groups, s.current.value, s.buffer);
      PutSemantics(s.groups, s.current.value, s.buffer + [l]);
    }
  }

  lemma {:induction false} ScanOrder(lines: seq<string>)
    ensures OrderInv(Scan(Start, lines), lines)
  {
    if lines != [] {
      var init := lines[..|lines| - 1];
      ScanOrder(init);
      StepOrder(Scan(Start, init), init, lines[|lines| - 1]);
      assert init + [lines[|lines| - 1]] == lines;
    }
  }

  /**
   * The parsed map lists its keys in order of first appearance: each truthy
   * group name once, where it is first announced, whatever runs follow.
   */
  lemma ParseKeyOrder(lines: seq<string>)
    ensures Parse(lines).keys == FirstNames(lines)
  {
    ScanOrder(lines);
  }

  // ---------------------------------------------------------------------------
  // Reading back a serialised map

  lemma RunGroup(s: ScanState, n: string, ls: seq<string>)
    requires ValidMap(s.groups) && IsRun(n, ls) && s.current != Some(n)
    ensures Scan(s, ls) == ScanState(Some(n), ls, Flush(s))
  {
    var rest := ls[1..];
    assert ls == [ls[0]] + rest;
    assert forall l :: l in rest ==> l in ls;
    OpenRun(s, n, ls[0], rest);
    KeptAll(rest);
  }

  /** The state after scanning the first `j` groups of a well-formed map. */
  ghost predicate ScannedGroups(m: GroupMap, j: nat)
    requires ValidMap(m) && 0 < j <= |m.keys|
  {
    Scan(Start, FlattenKeys(m, m.keys[..j]))
      == ScanState(Some(m.keys[j - 1]), m.values[m.keys[j - 1]], Take(m, j - 1))
  }

  lemma ScanFirstGroup(m: GroupMap)
    requires ValidMap(m) && 0 < |m.keys|
    requires IsRun(m.keys[0], m.values[m.keys[0]])
    ensures ScannedGroups(m, 1)
  {
    var k := m.keys[0];
    FlattenKeysNext(m, 1);
    assert FlattenKeys(m, m.keys[..0]) == [];
    assert [] + m.values[k] == m.values[k];
    RunGroup(Start, k, m.values[k]);
    TakeNone(m);
  }

  /** A run of a new name after an open group closes that group and opens the new one. */
  lemma ScanThenRun(f: seq<string>, g: GroupMap, p: string, pv: seq<string>, k: string, v: seq<string>)
    requires ValidMap(g) && Scan(Start, f) == ScanState(Some(p), pv, g)
    requires p != "" && pv != [] && p != k && IsRun(k, v)
    ensures Scan(Start, f + v) == ScanState(Some(k), v, Put(g, p, pv))
  {
    ScanAppend(Start, f, v);
    RunGroup(Scan(Start, f), k, v);
  }

  lemma ScanNextGroup(m: GroupMap, j: nat)
    requires ValidMap(m) && 1 < j <= |m.keys|
    requires IsGroup(m.keys[j - 2], m.values[m.keys[j - 2]])
    requires IsRun(m.keys[j - 1], m.values[m.keys[j - 1]])
    requires ScannedGroups(m, j - 1)
    ensures ScannedGroups(m, j)
  {
    var k := m.keys[j - 1];
    var p := m.keys[j - 2];
    FlattenKeysNext(m, j);
    ScanThenRun(FlattenKeys(m, m.keys[..j - 1]), Take(m, j - 2), p, m.values[p], k, m.values[k]);
    TakeNext(m, j - 2);
  }

  lemma {:induction false} ScanGroups(m: GroupMap, j: nat)
    requires WellFormed(m) && 0 < j <= |m.keys|
    ensures ScannedGroups(m, j)
  {
    assert m.keys[j - 1] in m.values;
    if j == 1 {
      ScanFirstGroup(m);
    } else {
      assert m.keys[j - 2] in m.values;
      ScanGroups(m, j - 1);
      ScanNextGroup(m, j);
    }
  }

  /**
   * Writing metadata lines followed by all groups of a well-formed map and
   * parsing the result gives back the same map, keys in the same order.
   */
  lemma ParseFlatten(meta: seq<string>, m: GroupMap)
    requires WellFormed(m)
    requires forall l :: l in meta ==> !IsKept(l)
    ensures Parse(meta + Flatten(m)) == m
  {
    assert Scan(Start, meta) == Start by {
      KeptNone(meta);
      ScanWithin(None, [], Empty, meta);
    }
    ScanAppend(Start, meta, Flatten(m));
    ParseGroups(m);
  }

  lemma ParseGroups(m: GroupMap)
    requires WellFormed(m)
    ensures Parse(Flatten(m)) == m
  {
    var n := |m.keys|;
    assert m.keys[..n] == m.keys;
    if n == 0 {
      TakeNone(m);
      TakeAll(m);
    } else {
      var k := m.keys[n - 1];
      assert k in m.values;
      ScanGroups(m, n);
      var s := Scan(Start, Flatten(m));
      assert s == ScanState(Some(k), m.values[k], Take(m, n - 1));
      assert IsGroup(k, m.values[k]);
      assert Flush(s) == Put(Take(m, n - 1), k, m.values[k]);
      TakeNext(m, n - 1);
      TakeAll(m);
    }
  }

  // ---------------------------------------------------------------------------
  // The loop

  /** `parse_m3u`, after the fetch: the loop over the lines, filling a dictionary in place. */
  method ParseM3U(lines: seq<string>) returns (groups: GroupTable)
    ensures fresh(groups) && groups.Valid()
    ensures groups.Model() == Parse(lines)
  {
    groups := new GroupTable();
    var current: Option<string> := None;
    var content: seq<string> := [];
    for i := 0 to |lines|
      invariant groups.Valid()
      invariant ScanState(current, content, groups.Model()) == Scan(Start, lines[..i])
    {
      var line := lines[i];
      assert lines[..i + 1][..i] == lines[..i];
      if StartsWith(line, InfoTag) {
        var found := FindTitle(line);
        if found.Some? {
          var name := Strip(found.value);
          if Some(name) != current {
            if Truthy(current) && content != [] {
              groups.Assign(current.value, content);
            }
            current := Some(name);
            content := [];
          }
        }
        content := content + [line];
      } else if StartsWith(line, OptionTag) || StartsWith(line, UrlTag) {
        content := content + [line];
      }
    }
    assert lines[..|lines|] == lines;
    if Truthy(current) && content != [] {
      groups.Assign(current.value, content);
    }
  }
}
