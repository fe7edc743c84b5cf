/**
 * The parts of Python's string handling that the caption layout relies on:
 * `str.upper` (restricted to ASCII), `str.isspace`, and `textwrap.wrap` with
 * expand_tabs, replace_whitespace, drop_whitespace and break_long_words on, as
 * by default. The one default left off is break_on_hyphens: chunks are split
 * at whitespace only, so any text holding a hyphen or `--` can wrap to other
 * lines than Python's.
 */
module PyText {
  import opened Wrappers

  // ---------------------------------------------------------------------------
  // Characters and upper-casing
  // ---------------------------------------------------------------------------

  /** Python's `str.isspace` test for one character (what `strip()` removes). */
  predicate IsPySpace(c: char) {
    var n := c as int;
    (9 <= n <= 13) || (28 <= n <= 32) || n == 0x85 || n == 0xA0 || n == 0x1680
    || (0x2000 <= n <= 0x200A) || n == 0x2028 || n == 0x2029 || n == 0x202F
    || n == 0x205F || n == 0x3000
  }

  /** The six characters textwrap treats as whitespace: tab, newline, vertical tab, form feed, carriage return, space. */
  predicate IsWrapSpace(c: char) {
    c == '\t' || c == '\n' || c as int == 11 || c as int == 12 || c == '\r' || c == ' '
  }

  /** textwrap's whitespace is whitespace to `strip()` as well. */
  lemma WrapSpaceIsPySpace(c: char)
    ensures IsWrapSpace(c) ==> IsPySpace(c)
    ensures c == '\U{A0}' ==> IsPySpace(c) && !IsWrapSpace(c)
  {
  }

  /** True when every character is removed by `strip()`. */
  predicate IsBlank(s: string) {
    forall i :: 0 <= i < |s| ==> IsPySpace(s[i])
  }

  function UpperChar(c: char): char {
    if 'a' <= c <= 'z' then (c as int - 32) as char else c
  }

  /** `str.upper` on ASCII letters; every other character is kept. */
  function Upper(s: string): (r: string)
    ensures |r| == |s|
    ensures forall i :: 0 <= i < |s| ==> (r[i] == s[i] || 'a' <= s[i] <= 'z')
    ensures forall i :: 0 <= i < |s| ==> !('a' <= r[i] <= 'z')
    ensures forall i :: 0 <= i < |s| && 'a' <= s[i] <= 'z' ==> r[i] as int == s[i] as int - 32
  {
    seq(|s|, i requires 0 <= i < |s| => UpperChar(s[i]))
  }

  lemma UpperIdempotent(s: string)
    ensures Upper(Upper(s)) == Upper(s)
  {
  }

  /** Upper-casing never touches whitespace, so a blank caption stays blank. */
  lemma UpperKeepsWrapSpace(s: string)
    ensures forall i :: 0 <= i < |s| ==> (IsWrapSpace(Upper(s)[i]) <==> IsWrapSpace(s[i]))
  {
  }

  // ---------------------------------------------------------------------------
  // Filtering and joining
  // ---------------------------------------------------------------------------

  /** The characters of `s` that `strip()` would not remove, in order. */
  function Visible(s: string): string
  {
    if s == [] then [] else (if IsPySpace(s[0]) then [] else [s[0]]) + Visible(s[1..])
  }

  /** `Visible` keeps the non-whitespace characters only, and never lengthens the text. */
  lemma {:induction false} VisibleHasNoSpace(s: string)
    ensures |Visible(s)| <= |s|
    ensures forall i :: 0 <= i < |Visible(s)| ==> !IsPySpace(Visible(s)[i])
  {
    if s != [] {
      VisibleHasNoSpace(s[1..]);
    }
  }

  lemma {:induction false} VisibleAppend(a: string, b: string)
    ensures Visible(a + b) == Visible(a) + Visible(b)
  {
    if a == [] {
      assert a + b == b;
    } else {
      assert (a + b)[0] == a[0] && (a + b)[1..] == a[1..] + b;
      VisibleAppend(a[1..], b);
    }
  }

  lemma {:induction false} VisibleBlank(s: string)
    requires IsBlank(s)
    ensures Visible(s) == []
  {
    if s != [] {
      VisibleBlank(s[1..]);
    }
  }

  /** `''.join(parts)`. */
  function Join<T>(parts: seq<seq<T>>): (r: seq<T>)
  {
    if parts == [] then [] else parts[0] + Join(parts[1..])
  }

  /** Sum of the lengths of the parts. */
  function TotalLen<T>(parts: seq<seq<T>>): nat
  {
    if parts == [] then 0 else |parts[0]| + TotalLen(parts[1..])
  }

  lemma {:induction false} JoinLength<T>(parts: seq<seq<T>>)
    ensures |Join(parts)| == TotalLen(parts)
  {
    if parts != [] {
      JoinLength(parts[1..]);
    }
  }

  lemma {:induction false} JoinAppend<T>(a: seq<seq<T>>, b: seq<seq<T>>)
    ensures Join(a + b) == Join(a) + Join(b)
    ensures TotalLen(a + b) == TotalLen(a) + TotalLen(b)
  {
    if a == [] {
      assert a + b == b;
    } else {
      assert (a + b)[0] == a[0] && (a + b)[1..] == a[1..] + b;
      JoinAppend(a[1..], b);
    }
  }

  lemma JoinCons<T>(a: seq<T>, parts: seq<seq<T>>)
    ensures Join([a] + parts) == a + Join(parts)
    ensures TotalLen([a] + parts) == |a| + TotalLen(parts)
  {
    assert ([a] + parts)[1..] == parts;
  }

  lemma ConsSplit<T>(s: seq<T>, p: seq<T>, q: seq<T>)
    requires s != [] && p + q == s[1..]
    ensures ([s[0]] + p) + q == s
  {
    assert ([s[0]] + p) + q == [s[0]] + (p + q);
  }

  // ---------------------------------------------------------------------------
  // Whitespace munging: expandtabs(8), then each whitespace character -> ' '
  // ---------------------------------------------------------------------------

  const TabSize: nat := 8

  function Spaces(n: nat): (r: string)
    ensures |r| == n && forall i :: 0 <= i < n ==> r[i] == ' '
  {
    if n == 0 then [] else [' '] + Spaces(n - 1)
  }

  /** `str.expandtabs(8)` started at column `col`: a tab pads to the next multiple of 8, newline or return resets the column. */
  function ExpandTabs(s: string, col: nat): (r: string)
    ensures forall i :: 0 <= i < |r| ==> r[i] != '\t'
    decreases |s|
  {
    if s == [] then []
    else if s[0] == '\t' then Spaces(TabSize - col % TabSize) + ExpandTabs(s[1..], NextCol(s[0], col))
    else [s[0]] + ExpandTabs(s[1..], NextCol(s[0], col))
  }

  /** The column after writing `c` at column `col`. */
  function NextCol(c: char, col: nat): nat
  {
    if c == '\t' then col + (TabSize - col % TabSize)
    else if c == '\n' || c == '\r' then 0
    else col + 1
  }

  /** `str.translate` with textwrap's whitespace table: every wrap-space character becomes ' '. */
  function Translate(s: string): (r: string)
    ensures |r| == |s|
    ensures forall i :: 0 <= i < |s| ==> r[i] == (if IsWrapSpace(s[i]) then ' ' else s[i])
  {
    if s == [] then [] else [if IsWrapSpace(s[0]) then ' ' else s[0]] + Translate(s[1..])
  }

  function Munge(s: string): string {
    Translate(ExpandTabs(s, 0))
  }

  lemma VisibleCons(c: char, t: string)
    ensures Visible([c] + t) == (if IsPySpace(c) then [] else [c]) + Visible(t)
  {
    assert ([c] + t)[0] == c && ([c] + t)[1..] == t;
  }

  /** Expanding the first character of `s` adds or removes no visible character. */
  lemma VisibleExpandStep(s: string, col: nat)
    requires s != []
    ensures Visible(ExpandTabs(s, col)) == Visible(s[..1]) + Visible(ExpandTabs(s[1..], NextCol(s[0], col)))
  {
    var rest := ExpandTabs(s[1..], NextCol(s[0], col));
    assert s[..1] == [s[0]] + [];
    VisibleCons(s[0], []);
    if s[0] == '\t' {
      var n := TabSize - col % TabSize;
      VisibleAppend(Spaces(n), rest);
      VisibleBlank(Spaces(n));
    } else {
      VisibleCons(s[0], rest);
    }
  }

  lemma {:induction false} VisibleExpandTabs(s: string, col: nat)
    ensures Visible(ExpandTabs(s, col)) == Visible(s)
    decreases |s|
  {
    if s != [] {
      VisibleExpandStep(s, col);
      VisibleExpandTabs(s[1..], NextCol(s[0], col));
      assert s == s[..1] + s[1..];
      VisibleAppend(s[..1], s[1..]);
    }
  }

  lemma {:induction false} VisibleTranslate(s: string)
    ensures Visible(Translate(s)) == Visible(s)
  {
    if s != [] {
      VisibleAppend([if IsWrapSpace(s[0]) then ' ' else s[0]], Translate(s[1..]));
      VisibleTranslate(s[1..]);
    }
  }

  /** Munging only rewrites whitespace: no visible character is gained, lost or moved. */
  lemma MungeKeepsVisible(s: string)
    ensures Visible(Munge(s)) == Visible(s)
  {
    VisibleExpandTabs(s, 0);
    VisibleTranslate(ExpandTabs(s, 0));
  }

  lemma {:induction false} ExpandTabsOfWrapSpace(s: string, col: nat)
    requires forall i :: 0 <= i < |s| ==> IsWrapSpace(s[i])
    ensures forall i :: 0 <= i < |ExpandTabs(s, col)| ==> IsWrapSpace(ExpandTabs(s, col)[i])
    decreases |s|
  {
    if s != [] {
      ExpandTabsOfWrapSpace(s[1..], NextCol(s[0], col));
    }
  }

  // ---------------------------------------------------------------------------
  // Chunks: maximal runs of spaces and of non-spaces
  // ---------------------------------------------------------------------------

  /** Length of the longest prefix of `s` whose characters all have wrap-space status `space`. */
  function Run(s: string, space: bool): (k: nat)
    ensures k <= |s|
    ensures forall i :: 0 <= i < k ==> IsWrapSpace(s[i]) == space
    ensures k < |s| ==> IsWrapSpace(s[k]) != space
  {
    if s == [] || IsWrapSpace(s[0]) != space then 0 else 1 + Run(s[1..], space)
  }

  /** textwrap's `_split` without hyphen splitting: the text cut into maximal space and non-space runs. */
  function Chunks(s: string): (r: seq<string>)
    ensures forall i :: 0 <= i < |r| ==> r[i] != []
    decreases |s|
  {
    if s == [] then []
    else
      var k := Run(s, IsWrapSpace(s[0]));
      [s[..k]] + Chunks(s[k..])
  }

  lemma {:induction false} JoinChunks(s: string)
    ensures Join(Chunks(s)) == s
    decreases |s|
  {
    if s != [] {
      var k := Run(s, IsWrapSpace(s[0]));
      JoinChunks(s[k..]);
      assert s == s[..k] + s[k..];
    }
  }

  /** A chunk: non-empty, and all textwrap whitespace or all not. */
  predicate IsRun(c: string) {
    c != [] && forall j :: 0 <= j < |c| ==> IsWrapSpace(c[j]) == IsWrapSpace(c[0])
  }

  /**
   * The chunks are maximal runs: each is all whitespace or all non-whitespace,
   * and two neighbouring chunks are of different kinds, so a word is never
   * split and never glued to a neighbour.
   */
  lemma {:induction false} ChunksAreRuns(s: string)
    ensures forall i :: 0 <= i < |Chunks(s)| ==> IsRun(Chunks(s)[i])
    ensures forall i :: 0 <= i < |Chunks(s)| - 1 ==>
      IsWrapSpace(Chunks(s)[i][0]) != IsWrapSpace(Chunks(s)[i + 1][0])
    ensures s != [] ==> Chunks(s) != [] && Chunks(s)[0][0] == s[0]
    decreases |s|
  {
    if s != [] {
      var k := Run(s, IsWrapSpace(s[0]));
      var rest := Chunks(s[k..]);
      ChunksAreRuns(s[k..]);
      assert Chunks(s) == [s[..k]] + rest;
      assert IsRun(s[..k]);
      forall i | 0 <= i < |rest| + 1
        ensures IsRun(([s[..k]] + rest)[i])
      {
        if i > 0 {
          assert ([s[..k]] + rest)[i] == rest[i - 1];
        }
      }
      forall i | 0 <= i < |rest|
        ensures IsWrapSpace(([s[..k]] + rest)[i][0]) != IsWrapSpace(([s[..k]] + rest)[i + 1][0])
      {
        assert ([s[..k]] + rest)[i + 1] == rest[i];
        if i > 0 {
          assert ([s[..k]] + rest)[i] == rest[i - 1];
        } else {
          assert rest[0][0] == s[k];
        }
      }
    }
  }

  // ---------------------------------------------------------------------------
  // The greedy line filler (textwrap's `_wrap_chunks`, chunks in text order)
  // ---------------------------------------------------------------------------

  /** Termination measure: characters still to place plus chunks still to pop. */
  function Weight(cs: seq<string>): nat
  {
    if cs == [] then 0 else |cs[0]| + 1 + Weight(cs[1..])
  }

  lemma {:induction false} WeightAppend(a: seq<string>, b: seq<string>)
    ensures Weight(a + b) == Weight(a) + Weight(b)
  {
    if a == [] {
      assert a + b == b;
    } else {
      assert (a + b)[0] == a[0] && (a + b)[1..] == a[1..] + b;
      WeightAppend(a[1..], b);
    }
  }

  /** One line's worth of work: the pieces placed on the line and the chunks left over. */
  datatype Fill = Fill(pieces: seq<string>, rest: seq<string>)

  /** The inner `while chunks` loop: pop chunks while `curLen + len(chunk) <= width`. */
  function Greedy(cs: seq<string>, width: nat, curLen: nat): (f: Fill)
    requires curLen <= width
    ensures f.pieces + f.rest == cs
    ensures curLen + TotalLen(f.pieces) <= width
    ensures f.rest != [] ==> curLen + TotalLen(f.pieces) + |f.rest[0]| > width
  {
    if cs == [] || curLen + |cs[0]| > width then Fill([], cs)
    else
      var f := Greedy(cs[1..], width, curLen + |cs[0]|);
      JoinCons(cs[0], f.pieces);
      ConsSplit(cs, f.pieces, f.rest);
      Fill([cs[0]] + f.pieces, f.rest)
  }

  /**
   * `_handle_long_word` with break_long_words: when the next chunk is longer
   * than the whole width, as much of it as fits (`width - cur_len`, possibly
   * nothing) goes on the current line and the remainder stays queued.
   */
  function BreakLongWord(f: Fill, width: nat): (g: Fill)
    requires TotalLen(f.pieces) <= width
  {
    if f.rest != [] && |f.rest[0]| > width then
      var room := width - TotalLen(f.pieces);
      var chunk := f.rest[0];
      Fill(f.pieces + [chunk[..room]], [chunk[room..]] + f.rest[1..])
    else f
  }

  /** Drops the line's last chunk when it is whitespace. */
  function DropTrailingBlank(pieces: seq<string>): (r: seq<string>)
  {
    if pieces != [] && IsBlank(pieces[|pieces| - 1]) then pieces[..|pieces| - 1] else pieces
  }

  /** Everything that happens to one line of the outer loop after the optional leading-blank drop. */
  function NextLine(cs: seq<string>, width: nat): (f: Fill)
    requires width >= 1
    ensures TotalLen(f.pieces) <= width
    ensures cs != [] ==> Weight(f.rest) < Weight(cs)
    ensures cs == [] ==> f == Fill([], [])
  {
    var g := Greedy(cs, width, 0);
    var h := BreakLongWord(g, width);
    var p := DropTrailingBlank(h.pieces);
    NextLineFacts(cs, width);
    Fill(p, h.rest)
  }

  lemma NextLineFacts(cs: seq<string>, width: nat)
    requires width >= 1
    ensures var h := BreakLongWord(Greedy(cs, width, 0), width);
            TotalLen(DropTrailingBlank(h.pieces)) <= width
            && (cs != [] ==> Weight(h.rest) < Weight(cs))
            && (cs == [] ==> h == Fill([], []))
  {
    var g := Greedy(cs, width, 0);
    WeightAppend(g.pieces, g.rest);
    BreakFacts(g, width);
    DropShortens(BreakLongWord(g, width).pieces);
  }

  /** Breaking a long word keeps the line within `width` and, when the line was empty, makes progress. */
  lemma BreakFacts(g: Fill, width: nat)
    requires width >= 1 && TotalLen(g.pieces) <= width
    requires g.rest != [] ==> TotalLen(g.pieces) + |g.rest[0]| > width
    ensures TotalLen(BreakLongWord(g, width).pieces) <= width
    ensures g.pieces + g.rest != [] ==>
      Weight(BreakLongWord(g, width).rest) < Weight(g.pieces) + Weight(g.rest)
    ensures g.pieces + g.rest == [] ==> BreakLongWord(g, width) == Fill([], [])
  {
    if g.rest != [] && |g.rest[0]| > width {
      var room := width - TotalLen(g.pieces);
      var chunk := g.rest[0];
      JoinAppend(g.pieces, [chunk[..room]]);
      JoinCons(chunk[..room], []);
      WeightCons(chunk, g.rest[1..]);
      WeightCons(chunk[room..], g.rest[1..]);
      assert g.rest == [chunk] + g.rest[1..];
      if g.pieces == [] {
        assert room == width;
      }
    } else if g.pieces != [] {
      WeightCons(g.pieces[0], g.pieces[1..]);
      assert g.pieces == [g.pieces[0]] + g.pieces[1..];
    }
  }

  /**
   * Where the break falls: a chunk that fits within the width is never cut,
   * and a cut chunk fills the line to exactly `width` characters, only the
   * head of that chunk moving onto the line.
   */
  lemma BreakCutsAtWidth(g: Fill, width: nat)
    requires TotalLen(g.pieces) <= width
    ensures g.rest == [] || |g.rest[0]| <= width ==> BreakLongWord(g, width) == g
    ensures g.rest != [] && |g.rest[0]| > width ==>
      TotalLen(BreakLongWord(g, width).pieces) == width
      && BreakLongWord(g, width).pieces[..|g.pieces|] == g.pieces
      && BreakLongWord(g, width).rest[1..] == g.rest[1..]
  {
    if g.rest != [] && |g.rest[0]| > width {
      var room := width - TotalLen(g.pieces);
      var chunk := g.rest[0];
      JoinAppend(g.pieces, [chunk[..room]]);
      JoinCons(chunk[..room], []);
      assert (g.pieces + [chunk[..room]])[..|g.pieces|] == g.pieces;
      assert ([chunk[room..]] + g.rest[1..])[1..] == g.rest[1..];
    }
  }

  lemma WeightCons(a: string, s: seq<string>)
    ensures Weight([a] + s) == |a| + 1 + Weight(s)
  {
    assert ([a] + s)[1..] == s;
  }

  /** Dropping the trailing blank piece never lengthens the line. */
  lemma DropShortens(p: seq<string>)
    ensures TotalLen(DropTrailingBlank(p)) <= TotalLen(p)
  {
    if p != [] && IsBlank(p[|p| - 1]) {
      assert p == p[..|p| - 1] + [p[|p| - 1]];
      JoinAppend(p[..|p| - 1], [p[|p| - 1]]);
    }
  }

  /**
   * The outer `while chunks` loop. `started` is "some line has been emitted";
   * until then a leading whitespace chunk is kept (paragraph indentation).
   */
  function WrapChunks(cs: seq<string>, width: nat, started: bool): (lines: seq<string>)
    requires width >= 1
    decreases Weight(cs)
  {
    if cs == [] then []
    else
      var queue := if started && IsBlank(cs[0]) then cs[1..] else cs;
      var f := NextLine(queue, width);
      WeightDrop(cs);
      var line := if f.pieces == [] then [] else [Join(f.pieces)];
      line + WrapChunks(f.rest, width, started || f.pieces != [])
  }

  lemma WeightDrop(cs: seq<string>)
    requires cs != []
    ensures Weight(cs[1..]) < Weight(cs)
  {
  }

  /** `textwrap.wrap(text, width)`: a non-positive width raises ValueError, even for empty text. */
  function Wrap(text: string, width: int): (r: Result<seq<string>>)
    ensures r.Raise? <==> width <= 0
    ensures r.Raise? ==> r.error == ValueError
  {
    if width <= 0 then Raise(ValueError)
    else Ok(WrapChunks(Chunks(Munge(text)), width, false))
  }

  // ---------------------------------------------------------------------------
  // Properties of the wrap
  // ---------------------------------------------------------------------------

  /** Every line fits in `width` characters. */
  predicate AllWithin(lines: seq<string>, width: nat)
  {
    forall i :: 0 <= i < |lines| ==> |lines[i]| <= width
  }

  lemma AllWithinAppend(a: seq<string>, b: seq<string>, width: nat)
    requires AllWithin(a, width) && AllWithin(b, width)
    ensures AllWithin(a + b, width)
  {
    forall i | 0 <= i < |a + b|
      ensures |(a + b)[i]| <= width
    {
      if i >= |a| {
        assert (a + b)[i] == b[i - |a|];
      }
    }
  }

  lemma {:induction false} WrapChunksBound(cs: seq<string>, width: nat, started: bool)
    requires width >= 1
    ensures AllWithin(WrapChunks(cs, width, started), width)
    decreases Weight(cs)
  {
    if cs != [] {
      var queue := if started && IsBlank(cs[0]) then cs[1..] else cs;
      var f := NextLine(queue, width);
      WeightDrop(cs);
      JoinLength(f.pieces);
      var line := if f.pieces == [] then [] else [Join(f.pieces)];
      assert AllWithin(line, width);
      var more := WrapChunks(f.rest, width, started || f.pieces != []);
      WrapChunksBound(f.rest, width, started || f.pieces != []);
      AllWithinAppend(line, more, width);
      assert WrapChunks(cs, width, started) == line + more;
    }
  }

  /** No wrapped line is longer than the requested width. */
  lemma WrapLineBound(text: string, width: int)
    requires width >= 1
    ensures Wrap(text, width).Ok?
    ensures forall i :: 0 <= i < |Wrap(text, width).value| ==> |Wrap(text, width).value[i]| <= width
  {
    WrapChunksBound(Chunks(Munge(text)), width, false);
  }

  lemma JoinSingle<T>(a: seq<T>)
    ensures Join([a]) == a
  {
    assert [a][1..] == [];
  }

  /** Splitting a long word moves characters between the line and the queue without losing any. */
  lemma BreakKeepsText(f: Fill, width: nat)
    requires TotalLen(f.pieces) <= width
    ensures Join(BreakLongWord(f, width).pieces) + Join(BreakLongWord(f, width).rest)
         == Join(f.pieces) + Join(f.rest)
  {
    if f.rest != [] && |f.rest[0]| > width {
      var room := width - TotalLen(f.pieces);
      var chunk := f.rest[0];
      var rest := f.rest[1..];
      JoinAppend(f.pieces, [chunk[..room]]);
      JoinCons(chunk[..room], []);
      JoinCons(chunk[room..], rest);
      assert f.rest == [chunk] + rest;
      JoinCons(chunk, rest);
      var x, a, b, r := Join(f.pieces), chunk[..room], chunk[room..], Join(rest);
      assert a + b == chunk;
      assert (x + a) + (b + r) == x + ((a + b) + r);
    }
  }

  lemma DropKeepsVisible(p: seq<string>)
    ensures Visible(Join(DropTrailingBlank(p))) == Visible(Join(p))
  {
    if p != [] && IsBlank(p[|p| - 1]) {
      var last := p[|p| - 1];
      assert p == p[..|p| - 1] + [last];
      JoinAppend(p[..|p| - 1], [last]);
      JoinSingle(last);
      VisibleAppend(Join(p[..|p| - 1]), last);
      VisibleBlank(last);
    }
  }

  /** One line of the filler loses only the whitespace chunk it drops. */
  lemma NextLineVisible(cs: seq<string>, width: nat)
    requires width >= 1
    ensures Visible(Join(NextLine(cs, width).pieces)) + Visible(Join(NextLine(cs, width).rest)) == Visible(Join(cs))
  {
    var g := Greedy(cs, width, 0);
    var h := BreakLongWord(g, width);
    JoinAppend(g.pieces, g.rest);
    BreakKeepsText(g, width);
    VisibleAppend(Join(h.pieces), Join(h.rest));
    DropKeepsVisible(h.pieces);
    assert NextLine(cs, width) == Fill(DropTrailingBlank(h.pieces), h.rest);
  }

  /** Dropping a leading blank chunk keeps the visible text. */
  lemma QueueVisible(cs: seq<string>, started: bool)
    requires cs != []
    ensures Visible(Join(if started && IsBlank(cs[0]) then cs[1..] else cs)) == Visible(Join(cs))
  {
    if started && IsBlank(cs[0]) {
      assert Join(cs) == cs[0] + Join(cs[1..]);
      VisibleAppend(cs[0], Join(cs[1..]));
      VisibleBlank(cs[0]);
    }
  }

  /** Emitting the pieces as one line (or nothing when empty) keeps the visible text. */
  lemma LineVisible(pieces: seq<string>)
    ensures Visible(Join(if pieces == [] then [] else [Join(pieces)])) == Visible(Join(pieces))
  {
    if pieces != [] {
      JoinSingle(Join(pieces));
    }
  }

  lemma {:induction false} WrapChunksVisible(cs: seq<string>, width: nat, started: bool)
    requires width >= 1
    ensures Visible(Join(WrapChunks(cs, width, started))) == Visible(Join(cs))
    decreases Weight(cs)
  {
    if cs != [] {
      var queue := if started && IsBlank(cs[0]) then cs[1..] else cs;
      QueueVisible(cs, started);
      var f := NextLine(queue, width);
      WeightDrop(cs);
      NextLineVisible(queue, width);
      var line := if f.pieces == [] then [] else [Join(f.pieces)];
      LineVisible(f.pieces);
      var more := WrapChunks(f.rest, width, started || f.pieces != []);
      WrapChunksVisible(f.rest, width, started || f.pieces != []);
      assert WrapChunks(cs, width, started) == line + more;
      JoinAppend(line, more);
      VisibleAppend(Join(line), Join(more));
    }
  }

  /**
   * Wrapping drops only whitespace: read in order, the lines hold exactly the
   * non-whitespace characters of the text.
   */
  lemma WrapKeepsVisible(text: string, width: int)
    requires width >= 1
    ensures Wrap(text, width).Ok?
    ensures Visible(Join(Wrap(text, width).value)) == Visible(text)
  {
    WrapChunksVisible(Chunks(Munge(text)), width, false);
    JoinChunks(Munge(text));
    MungeKeepsVisible(text);
  }

  lemma {:induction false} WrapChunksOfSpaces(m: string, width: nat)
    requires width >= 1
    requires forall i :: 0 <= i < |m| ==> m[i] == ' '
    ensures WrapChunks([m], width, false) == []
    decreases |m|
  {
    var g := Greedy([m], width, 0);
    if |m| <= width {
      assert Greedy([m][1..], width, |m|) == Fill([], []);
      assert g == Fill([m], []);
    } else {
      assert g == Fill([], [m]);
      var h := BreakLongWord(g, width);
      assert h == Fill([m[..width]], [m[width..]] + []);
      assert [m[width..]] + [] == [m[width..]];
      assert IsBlank(m[..width]);
      WeightDrop([m]);
      WrapChunksOfSpaces(m[width..], width);
    }
  }

  lemma {:induction false} RunOfSpaces(s: string)
    requires forall i :: 0 <= i < |s| ==> s[i] == ' '
    ensures Run(s, true) == |s|
  {
    if s != [] {
      RunOfSpaces(s[1..]);
    }
  }

  /** A caption made only of whitespace wraps to no lines at all. */
  lemma WrapBlank(text: string, width: int)
    requires width >= 1
    requires forall i :: 0 <= i < |text| ==> IsWrapSpace(text[i])
    ensures Wrap(text, width) == Ok([])
  {
    var e := ExpandTabs(text, 0);
    ExpandTabsOfWrapSpace(text, 0);
    var m := Translate(e);
    assert forall i :: 0 <= i < |m| ==> m[i] == ' ';
    if m != [] {
      RunOfSpaces(m);
      assert m[..|m|] == m && m[|m|..] == [];
      assert Chunks(m) == [m];
      WrapChunksOfSpaces(m, width);
    }
  }
}
