/** `extractToc` of the blog detail page: one pass over the lines of a markdown text that
    keeps one flag, "inside a ``` fence", recognises ATX headings of 1 to 6 `#`, keeps the
    levels asked for, cleans the heading text and numbers the ids with a fresh slugger. */
module Toc {
  import opened Wrappers
  import opened Strings
  import opened Slugging

  /** One entry of the table of contents. */
  datatype TocItem = TocItem(id: string, text: string, level: int)

  /** A heading line: its number of `#` and the text after the white space that follows. */
  datatype Heading = Heading(level: nat, rest: string)

  function Hashes(k: nat): (r: string)
    ensures |r| == k && forall i :: 0 <= i < k ==> r[i] == '#'
  {
    seq(k, _ => '#')
  }

  predicate StartsWithTicks(t: string) {
    |t| >= 3 && t[0] == '`' && t[1] == '`' && t[2] == '`'
  }

  /** A fence line: three backticks after any leading white space. */
  predicate IsFence(line: string) {
    if line != [] && IsSpace(line[0]) then IsFence(line[1..]) else StartsWithTicks(line)
  }

  /** `IsFence` is `line.trimStart().startsWith("```")`. */
  lemma {:induction false} IsFenceIsTrimmedTicks(line: string)
    ensures IsFence(line) <==> StartsWithTicks(TrimStart(line)) && TrimStart(line)[..3] == "```"
  {
    if line != [] && IsSpace(line[0]) {
      IsFenceIsTrimmedTicks(line[1..]);
    }
  }

  /** The number of `#` a string starts with. */
  function LeadingHashes(s: string): (n: nat)
    ensures n <= |s|
    ensures forall i :: 0 <= i < n ==> s[i] == '#'
    ensures n < |s| ==> s[n] != '#'
  {
    if s != [] && s[0] == '#' then 1 + LeadingHashes(s[1..]) else 0
  }

  /** `/^(#{1,6})\s+(.+?)\s*$/.exec(line)` on a line without trailing white space (the only
      kind `extractToc` gives it): the hashes, at least one white-space character, and the
      rest of the line, which must not hold a line terminator. */
  function ParseHeading(line: string): (r: Option<Heading>)
    ensures r.Some? ==> 1 <= r.value.level <= 6
  {
    var k := LeadingHashes(line);
    if 1 <= k <= 6 && k < |line| && IsSpace(line[k]) then
      var text := TrimStart(line[k..]);
      if text != [] && NoLineTerminator(text) then Some(Heading(k, text)) else None
    else None
  }

  /** What a recognised heading line looks like: 1 to 6 `#`, a non-empty run of white
      space, then the text, which starts with no white space and holds no line terminator. */
  lemma {:induction false} ParseHeadingSound(line: string)
    requires ParseHeading(line).Some?
    ensures var h := ParseHeading(line).value;
      && 1 <= h.level <= 6
      && h.rest != [] && !IsSpace(h.rest[0]) && NoLineTerminator(h.rest)
      && h.level + 1 + |h.rest| <= |line|
      && line == Hashes(h.level) + line[h.level..|line| - |h.rest|] + h.rest
      && AllSpace(line[h.level..|line| - |h.rest|])
  {
    var k := LeadingHashes(line);
    assert line[..k] == Hashes(k);
    SpacesThenText(line, k);
  }

  /** Cutting a line after `k` hashes and the white space that follows them. */
  lemma {:induction false} SpacesThenText(line: string, k: nat)
    requires k < |line| && IsSpace(line[k]) && line[..k] == Hashes(k)
    ensures var t := TrimStart(line[k..]);
      && k + 1 + |t| <= |line|
      && line == Hashes(k) + line[k..|line| - |t|] + t
      && AllSpace(line[k..|line| - |t|])
  {
    var s := line[k..];
    var t := TrimStart(s);
    assert s[0] == line[k];
    assert |t| < |s|;
    CutAfterHashes(line, k, t);
  }

  lemma {:induction false} CutAfterHashes(line: string, k: nat, t: string)
    requires k + |t| < |line| && line[..k] == Hashes(k)
    requires t == line[k..][|line| - k - |t|..] && AllSpace(line[k..][..|line| - k - |t|])
    ensures line == Hashes(k) + line[k..|line| - |t|] + t
    ensures AllSpace(line[k..|line| - |t|])
  {
    var p := |line| - |t|;
    SuffixOfSuffix(line, k, p - k);
    PrefixOfSuffix(line, k, p - k);
    ThreePieces(line, k, p);
  }

  /** A line with leading white space, or with seven or more `#`, is never a heading. */
  lemma {:induction false} HeadingStartsAtColumnZero(line: string)
    requires ParseHeading(line).Some?
    ensures !IsSpace(line[0])
    ensures !(|line| >= 7 && line[..7] == Hashes(7))
  {
    var k := LeadingHashes(line);
    assert 1 <= k <= 6 && k < |line|;
    assert line[0] == '#';
  }

  /** Every line of that shape is recognised, with that level and that text. */
  lemma {:induction false} ParseHeadingComplete(k: nat, w: string, t: string)
    requires 1 <= k <= 6
    requires w != [] && AllSpace(w)
    requires t != [] && !IsSpace(t[0]) && NoLineTerminator(t)
    ensures ParseHeading(Hashes(k) + w + t) == Some(Heading(k, t))
  {
    var line := Hashes(k) + w + t;
    HashesPrefix(k, w + t);
    assert line == Hashes(k) + (w + t);
    assert line[k..] == w + t;
    TrimStartOfSpaces(w, t);
  }

  lemma {:induction false} HashesPrefix(k: nat, u: string)
    requires u == [] || u[0] != '#'
    ensures LeadingHashes(Hashes(k) + u) == k
  {
    if k > 0 {
      HashesPrefix(k - 1, u);
      assert (Hashes(k) + u)[1..] == Hashes(k - 1) + u;
    } else {
      assert Hashes(0) + u == u;
    }
  }

  /** The first index at or after `i` where `s` holds `c`. */
  function FindFrom(s: string, c: char, i: nat): (r: Option<nat>)
    ensures r.Some? ==> i <= r.value < |s| && s[r.value] == c
    decreases |s| - i
  {
    if i >= |s| then None else if s[i] == c then Some(i) else FindFrom(s, c, i + 1)
  }

  lemma {:induction false} FindFromFirst(s: string, c: char, i: nat, j: nat)
    requires i <= j < |s| && s[j] == c
    requires forall k :: i <= k < j ==> s[k] != c
    ensures FindFrom(s, c, i) == Some(j)
    decreases j - i
  {
    if i < j {
      FindFromFirst(s, c, i + 1, j);
    }
  }

  /** A match of `/\[([^\]]+)\]\([^)]+\)/` at the start of `s`: the caption and the length of
      the whole link. */
  function LinkAt(s: string): (r: Option<(string, nat)>)
    ensures r.Some? ==> 0 < r.value.1 <= |s|
  {
    if |s| > 0 && s[0] == '[' then
      match FindFrom(s, ']', 1)
      case None => None
      case Some(j) =>
        if j > 1 && j + 1 < |s| && s[j + 1] == '(' then
          match FindFrom(s, ')', j + 2)
          case None => None
          case Some(k) => if k > j + 2 then Some((s[1..j], k + 1)) else None
        else None
    else None
  }

  /** `.replace(/\[([^\]]+)\]\([^)]+\)/g, "$1")`: each markdown link, from left to right,
      replaced by its caption. */
  function CollapseLinks(s: string): string
    decreases |s|
  {
    if s == [] then []
    else
      match LinkAt(s)
      case Some(link) => link.0 + CollapseLinks(s[link.1..])
      case None => [s[0]] + CollapseLinks(s[1..])
  }

  /** `[caption](url)` collapses to `caption`. */
  lemma {:induction false} LinkCollapses(caption: string, url: string, rest: string)
    requires caption != [] && ']' !in caption
    requires url != [] && ')' !in url
    ensures CollapseLinks("[" + caption + "](" + url + ")" + rest) == caption + CollapseLinks(rest)
  {
    var s := "[" + caption + "](" + url + ")" + rest;
    var j := |caption| + 1;
    var k := |caption| + 3 + |url|;
    assert s[1..j] == caption;
    assert s[j] == ']' && s[j + 1] == '(' && s[k] == ')';
    forall m | 1 <= m < j ensures s[m] != ']' {
      assert s[m] == caption[m - 1];
    }
    FindFromFirst(s, ']', 1, j);
    forall m | j + 2 <= m < k ensures s[m] != ')' {
      assert s[m] == url[m - j - 2];
    }
    FindFromFirst(s, ')', j + 2, k);
    assert LinkAt(s) == Some((caption, k + 1));
    assert s[k + 1..] == rest;
  }

  /** `FindFrom` skips no earlier occurrence of the character. */
  lemma {:induction false} FindFromSkipsNone(s: string, c: char, i: nat, j: nat)
    requires FindFrom(s, c, i) == Some(j)
    ensures forall m :: i <= m < j ==> s[m] != c
    decreases |s| - i
  {
    if s[i] != c {
      FindFromSkipsNone(s, c, i + 1, j);
    }
  }

  /** A link match really is `[caption](url)` at the start of the text, with a non-empty
      caption free of `]` and a non-empty url free of `)`; its length reaches `rest`. */
  lemma {:induction false} LinkAtSound(s: string) returns (url: string, rest: string)
    requires LinkAt(s).Some?
    ensures var caption := LinkAt(s).value.0;
      && caption != [] && ']' !in caption && url != [] && ')' !in url
      && s == "[" + caption + "](" + url + ")" + rest
      && LinkAt(s).value.1 == |s| - |rest|
  {
    var j := FindFrom(s, ']', 1).value;
    var k := FindFrom(s, ')', j + 2).value;
    FindFromSkipsNone(s, ']', 1, j);
    FindFromSkipsNone(s, ')', j + 2, k);
    var caption := s[1..j];
    url := s[j + 2..k];
    rest := s[k + 1..];
    assert ']' !in caption by {
      forall m | 0 <= m < |caption| ensures caption[m] != ']' {
        assert caption[m] == s[m + 1];
      }
    }
    assert ')' !in url by {
      forall m | 0 <= m < |url| ensures url[m] != ')' {
        assert url[m] == s[m + j + 2];
      }
    }
    assert s == "[" + caption + "](" + url + ")" + rest;
  }

  /** A `[` that starts no link is kept, and the scan goes on after it. */
  lemma {:induction false} NonLinkBracketKept(s: string)
    requires s != [] && s[0] == '['
    requires forall caption, url, rest ::
      caption != [] && ']' !in caption && url != [] && ')' !in url ==>
      s != "[" + caption + "](" + url + ")" + rest
    ensures CollapseLinks(s) == "[" + CollapseLinks(s[1..])
  {
    if LinkAt(s).Some? {
      var url, rest := LinkAtSound(s);
      assert false;
    }
  }

  /** Text without a `[` has no link to collapse. */
  lemma {:induction false} NoBracketUnchanged(s: string)
    requires '[' !in s
    ensures CollapseLinks(s) == s
  {
    if s != [] {
      assert '[' !in s[1..];
      NoBracketUnchanged(s[1..]);
    }
  }

  /** Text before the first `[` passes through unchanged, and links after it collapse as
      they would on their own: with `LinkCollapses`, a link anywhere in a heading becomes
      its caption. */
  lemma {:induction false} CollapseLinksPlainPrefix(a: string, b: string)
    requires '[' !in a
    ensures CollapseLinks(a + b) == a + CollapseLinks(b)
    decreases |a|
  {
    if a == [] {
      assert a + b == b;
    } else {
      var s := a + b;
      assert s[0] == a[0] && s[0] != '[';
      assert s[1..] == a[1..] + b;
      assert '[' !in a[1..];
      CollapseLinksPlainPrefix(a[1..], b);
      assert a == [a[0]] + a[1..];
    }
  }

  predicate IsMark(c: char) {
    c == '*' || c == '_' || c == '`'
  }

  /** `.replace(/[*_`]/g, "")`. */
  function RemoveMarks(s: string): string {
    if s == [] then [] else (if IsMark(s[0]) then [] else [s[0]]) + RemoveMarks(s[1..])
  }

  lemma {:induction false} RemoveMarksRemovesAll(s: string)
    ensures forall i :: 0 <= i < |RemoveMarks(s)| ==> !IsMark(RemoveMarks(s)[i])
  {
    if s != [] {
      RemoveMarksRemovesAll(s[1..]);
    }
  }

  /** Removing marks works character by character: the marks of two texts are removed
      from each in turn. */
  lemma {:induction false} RemoveMarksAppend(a: string, b: string)
    ensures RemoveMarks(a + b) == RemoveMarks(a) + RemoveMarks(b)
    decreases |a|
  {
    if a == [] {
      assert a + b == b;
    } else {
      assert (a + b)[0] == a[0] && (a + b)[1..] == a[1..] + b;
      RemoveMarksAppend(a[1..], b);
    }
  }

  /** One character is dropped exactly when it is a mark, and kept otherwise. With
      `RemoveMarksAppend` this fixes `RemoveMarks`: every other character stays, in order. */
  lemma {:induction false} RemoveMarksOne(c: char)
    ensures RemoveMarks([c]) == if IsMark(c) then [] else [c]
  {
    assert [c][1..] == [];
  }

  /** A text without marks is left as it is. */
  lemma {:induction false} RemoveMarksNoMarks(s: string)
    requires forall i :: 0 <= i < |s| ==> !IsMark(s[i])
    ensures RemoveMarks(s) == s
  {
    if s != [] {
      RemoveMarksNoMarks(s[1..]);
    }
  }

  /** The text of a table-of-contents entry, from the text the heading pattern captured. */
  function CleanText(rest: string): string {
    Trim(RemoveMarks(CollapseLinks(rest)))
  }

  /** Trimming keeps only characters of its input. */
  lemma {:induction false} TrimKeepsNoMarks(r: string)
    requires forall i :: 0 <= i < |r| ==> !IsMark(r[i])
    ensures forall i :: 0 <= i < |Trim(r)| ==> !IsMark(Trim(r)[i])
  {
    var p := TrimIsInfix(r);
    var t := Trim(r);
    forall i | 0 <= i < |t| ensures !IsMark(t[i]) {
      assert t[i] == r[p + i];
    }
  }

  /** Entry text holds no `*`, `_` or backtick, and no white space at either end. */
  lemma {:induction false} CleanTextShape(rest: string)
    ensures var t := CleanText(rest);
      && (forall i :: 0 <= i < |t| ==> !IsMark(t[i]))
      && (t == [] || (!IsSpace(t[0]) && !IsSpace(t[|t| - 1])))
  {
    var c := CollapseLinks(rest);
    RemoveMarksRemovesAll(c);
    TrimKeepsNoMarks(RemoveMarks(c));
  }

  /** A heading text with no link, no mark and no white space at its ends is its own entry
      text: `## Intro` gives the entry text "Intro". */
  lemma {:induction false} CleanTextOfPlain(rest: string)
    requires '[' !in rest
    requires forall i :: 0 <= i < |rest| ==> !IsMark(rest[i])
    requires rest == [] || (!IsSpace(rest[0]) && !IsSpace(rest[|rest| - 1]))
    ensures CleanText(rest) == rest
  {
    NoBracketUnchanged(rest);
    RemoveMarksNoMarks(rest);
    assert TrimStart(rest) == rest;
    assert TrimEnd(rest) == rest;
  }

  /** What one raw line is to `extractToc`, once trimmed at the end: a fence line, a
      heading (its level and its cleaned text), or anything else. */
  datatype LineKind = FenceLine | HeadingLine(level: int, text: string) | OtherLine

  function Classify(raw: string): (k: LineKind)
    ensures k.HeadingLine? ==> 1 <= k.level <= 6
  {
    var line := TrimEnd(raw);
    if IsFence(line) then FenceLine
    else
      match ParseHeading(line)
      case None => OtherLine
      case Some(h) => HeadingLine(h.level, CleanText(h.rest))
  }

  function Kinds(lines: seq<string>): (r: seq<LineKind>)
    ensures |r| == |lines|
  {
    seq(|lines|, i requires 0 <= i < |lines| => Classify(lines[i]))
  }

  /** What `extractToc` holds between two lines: the fence flag, the slugger's counts and the
      entries so far. */
  datatype Scan = Scan(inCode: bool, counts: map<string, nat>, out: seq<TocItem>)

  const Start := Scan(false, map[], [])

  /** The body of the loop of `extractToc`, for one line: a fence line flips the flag, a
      line inside a fence is skipped, and a heading of a level in range gets an entry whose
      id a slugger with base-slug function `baseOf` gives. The page's slugger uses
      `SlugBase`; the facts below hold for any. */
  function Step(st: Scan, k: LineKind, minLevel: int, maxLevel: int, baseOf: string -> string): Scan {
    match k
    case FenceLine => st.(inCode := !st.inCode)
    case OtherLine => st
    case HeadingLine(level, text) =>
      if st.inCode || level < minLevel || level > maxLevel then st
      else
        var base := baseOf(text);
        var n := CountOf(st.counts, base);
        st.(counts := st.counts[base := n + 1],
            out := st.out + [TocItem(Suffixed(base, n), text, level)])
  }

  /** The state after the loop ran over lines of these kinds. */
  function Run(kinds: seq<LineKind>, minLevel: int, maxLevel: int, baseOf: string -> string): Scan {
    if kinds == [] then Start
    else Step(Run(kinds[..|kinds| - 1], minLevel, maxLevel, baseOf), kinds[|kinds| - 1], minLevel, maxLevel, baseOf)
  }

  /** `extractToc(markdown, minLevel, maxLevel)`. */
  function ExtractTocSpec(markdown: string, minLevel: int, maxLevel: int): seq<TocItem> {
    Run(Kinds(Split(markdown, '\n')), minLevel, maxLevel, SlugBase).out
  }

  /** `extractToc`, as the source writes it: a loop over the lines with a fresh slugger. */
  method ExtractToc(markdown: string, minLevel: int, maxLevel: int) returns (out: seq<TocItem>)
    ensures out == ExtractTocSpec(markdown, minLevel, maxLevel)
  {
    var slug := new Slugger();
    var lines := Split(markdown, '\n');
    var inCode := false;
    out := [];
    var i := 0;
    while i < |lines|
      invariant 0 <= i <= |lines|
      invariant Scan(inCode, slug.counts, out) == Run(Kinds(lines[..i]), minLevel, maxLevel, SlugBase)
    {
      RunOfOneMore(lines, i, minLevel, maxLevel, SlugBase);
      inCode, out := ScanLine(slug, lines[i], inCode, out, minLevel, maxLevel);
      i := i + 1;
    }
    assert lines[..|lines|] == lines;
  }

  /** The body of the loop of `extractToc` for one raw line: the line is classified (trailing
      white space cut, fence test, heading pattern, text cleaned), then its kind is applied. */
  method ScanLine(slug: Slugger, raw: string, inCode: bool, out: seq<TocItem>, minLevel: int, maxLevel: int)
    returns (inCode': bool, out': seq<TocItem>)
    modifies slug
    ensures Scan(inCode', slug.counts, out') == Step(Scan(inCode, old(slug.counts), out), Classify(raw), minLevel, maxLevel, SlugBase)
  {
    var kind := Classify(raw);
    inCode', out' := ApplyKind(slug, kind, inCode, out, minLevel, maxLevel);
  }

  /** A fence line toggles the flag, any line inside a fence is skipped, and a heading of a
      level in range is given an id by the slugger and pushed. */
  method ApplyKind(slug: Slugger, kind: LineKind, inCode: bool, out: seq<TocItem>, minLevel: int, maxLevel: int)
    returns (inCode': bool, out': seq<TocItem>)
    modifies slug
    ensures Scan(inCode', slug.counts, out') == Step(Scan(inCode, old(slug.counts), out), kind, minLevel, maxLevel, SlugBase)
  {
    if kind.FenceLine? {
      inCode', out' := !inCode, out;
    } else if inCode || kind.OtherLine? || kind.level < minLevel || kind.level > maxLevel {
      inCode', out' := inCode, out;
    } else {
      inCode' := false;
      out' := PushHeading(slug, kind, out, minLevel, maxLevel);
    }
  }

  /** A heading of a level in range, outside a fence: `slug(text)` and a push. */
  method PushHeading(slug: Slugger, kind: LineKind, out: seq<TocItem>, minLevel: int, maxLevel: int)
    returns (out': seq<TocItem>)
    requires kind.HeadingLine? && minLevel <= kind.level <= maxLevel
    modifies slug
    ensures Scan(false, slug.counts, out') == Step(Scan(false, old(slug.counts), out), kind, minLevel, maxLevel, SlugBase)
  {
    ghost var st := Scan(false, slug.counts, out);
    var id := slug.Slug(kind.text);
    out' := out + [TocItem(id, kind.text, kind.level)];
    HeadingApplied(st, kind, slug.counts, out', minLevel, maxLevel);
  }

  lemma {:induction false} HeadingApplied(st: Scan, kind: LineKind, counts: map<string, nat>, out: seq<TocItem>, minLevel: int, maxLevel: int)
    requires kind.HeadingLine? && !st.inCode && minLevel <= kind.level <= maxLevel
    requires counts == st.counts[SlugBase(kind.text) := CountOf(st.counts, SlugBase(kind.text)) + 1]
    requires out == st.out + [TocItem(Suffixed(SlugBase(kind.text), CountOf(st.counts, SlugBase(kind.text))), kind.text, kind.level)]
    ensures Scan(false, counts, out) == Step(st, kind, minLevel, maxLevel, SlugBase)
  {
    StepOfHeading(st, kind.level, kind.text, SlugBase(kind.text), minLevel, maxLevel, SlugBase);
  }

  /** The step for a heading in range outside a fence: one more call of the slugger. */
  lemma {:induction false} StepOfHeading(st: Scan, level: int, text: string, base: string, minLevel: int, maxLevel: int, baseOf: string -> string)
    requires !st.inCode && minLevel <= level <= maxLevel && base == baseOf(text)
    ensures Step(st, HeadingLine(level, text), minLevel, maxLevel, baseOf)
        == Scan(false, st.counts[base := CountOf(st.counts, base) + 1],
                st.out + [TocItem(Suffixed(base, CountOf(st.counts, base)), text, level)])
  {
  }

  /** Running over one more line is one more step. */
  lemma {:induction false} RunOfOneMore(lines: seq<string>, i: nat, minLevel: int, maxLevel: int, baseOf: string -> string)
    requires i < |lines|
    ensures Run(Kinds(lines[..i + 1]), minLevel, maxLevel, baseOf)
         == Step(Run(Kinds(lines[..i]), minLevel, maxLevel, baseOf), Classify(lines[i]), minLevel, maxLevel, baseOf)
  {
    var ks := Kinds(lines[..i + 1]);
    assert ks[..i] == Kinds(lines[..i]);
    assert ks[i] == Classify(lines[i]);
  }

  /** One line adds at most one entry, and only when it is a heading of a level in range
      outside a fence; the entry then carries that level and that text. A fence line flips
      the flag and changes nothing else; a heading out of range changes nothing, and so does
      not advance any collision count. */
  lemma {:induction false} StepEffect(st: Scan, k: LineKind, minLevel: int, maxLevel: int, baseOf: string -> string)
    ensures var st' := Step(st, k, minLevel, maxLevel, baseOf);
      var adds := k.HeadingLine? && !st.inCode && minLevel <= k.level <= maxLevel;
      && (k == FenceLine ==> st' == st.(inCode := !st.inCode))
      && (k != FenceLine ==> st'.inCode == st.inCode)
      && (!adds ==> st'.out == st.out && st'.counts == st.counts)
      && (adds ==> |st'.out| == |st.out| + 1 && st'.out[..|st.out|] == st.out
                   && st'.out[|st.out|].level == k.level && st'.out[|st.out|].text == k.text)
  {
    if k.HeadingLine? && !st.inCode && minLevel <= k.level <= maxLevel {
      var st' := Step(st, k, minLevel, maxLevel, baseOf);
      assert st'.out == st.out + [st'.out[|st.out|]];
    }
  }

  /** The number of fence lines among `kinds`. */
  function FenceCount(kinds: seq<LineKind>): nat {
    if kinds == [] then 0
    else FenceCount(kinds[..|kinds| - 1]) + (if kinds[|kinds| - 1] == FenceLine then 1 else 0)
  }

  /** After any lines, the scan is inside a fence exactly when it has seen an odd number of
      fence lines: every line between an opening and a closing fence yields nothing. */
  lemma {:induction false} InCodeIsOddFences(kinds: seq<LineKind>, minLevel: int, maxLevel: int, baseOf: string -> string)
    ensures Run(kinds, minLevel, maxLevel, baseOf).inCode <==> FenceCount(kinds) % 2 == 1
  {
    if kinds != [] {
      var init := kinds[..|kinds| - 1];
      InCodeIsOddFences(init, minLevel, maxLevel, baseOf);
      StepEffect(Run(init, minLevel, maxLevel, baseOf), kinds[|kinds| - 1], minLevel, maxLevel, baseOf);
    }
  }

  /** Entries come in document order: the entries of a first part of the document are a
      prefix of the entries of the whole. */
  lemma {:induction false} EarlierLinesComeFirst(kinds: seq<LineKind>, i: nat, minLevel: int, maxLevel: int, baseOf: string -> string)
    requires i <= |kinds|
    ensures var before := Run(kinds[..i], minLevel, maxLevel, baseOf).out;
      var all := Run(kinds, minLevel, maxLevel, baseOf).out;
      |before| <= |all| && all[..|before|] == before
    decreases |kinds|
  {
    if i < |kinds| {
      var init := kinds[..|kinds| - 1];
      assert kinds[..i] == init[..i];
      EarlierLinesComeFirst(init, i, minLevel, maxLevel, baseOf);
      StepEffect(Run(init, minLevel, maxLevel, baseOf), kinds[|kinds| - 1], minLevel, maxLevel, baseOf);
    } else {
      assert kinds[..i] == kinds;
    }
  }

  predicate LevelsValid(kinds: seq<LineKind>) {
    forall j :: 0 <= j < |kinds| && kinds[j].HeadingLine? ==> 1 <= kinds[j].level <= 6
  }

  /** Every entry has a level in `[minLevel, maxLevel]` and in `[1, 6]`. */
  predicate LevelsWithin(out: seq<TocItem>, minLevel: int, maxLevel: int) {
    forall j :: 0 <= j < |out| ==> minLevel <= out[j].level <= maxLevel && 1 <= out[j].level <= 6
  }

  lemma {:induction false} LevelsInRange(kinds: seq<LineKind>, minLevel: int, maxLevel: int, baseOf: string -> string)
    requires LevelsValid(kinds)
    ensures LevelsWithin(Run(kinds, minLevel, maxLevel, baseOf).out, minLevel, maxLevel)
  {
    if kinds != [] {
      var init := kinds[..|kinds| - 1];
      var k := kinds[|kinds| - 1];
      assert LevelsValid(init) by {
        forall j | 0 <= j < |init| && init[j].HeadingLine? ensures 1 <= init[j].level <= 6 {
          assert init[j] == kinds[j];
        }
      }
      LevelsInRange(init, minLevel, maxLevel, baseOf);
      var st := Run(init, minLevel, maxLevel, baseOf);
      StepEffect(st, k, minLevel, maxLevel, baseOf);
      var out := Step(st, k, minLevel, maxLevel, baseOf).out;
      forall j | 0 <= j < |out| ensures minLevel <= out[j].level <= maxLevel && 1 <= out[j].level <= 6 {
        if j < |st.out| {
          assert out[j] == out[..|st.out|][j];
        }
      }
    }
  }

  /** The levels of the entries of any markdown text. */
  lemma {:induction false} ExtractTocLevels(markdown: string, minLevel: int, maxLevel: int)
    ensures LevelsWithin(ExtractTocSpec(markdown, minLevel, maxLevel), minLevel, maxLevel)
  {
    var lines := Split(markdown, '\n');
    var kinds := Kinds(lines);
    assert LevelsValid(kinds) by {
      forall j | 0 <= j < |kinds| && kinds[j].HeadingLine? ensures 1 <= kinds[j].level <= 6 {
        assert kinds[j] == Classify(lines[j]);
      }
    }
    LevelsInRange(kinds, minLevel, maxLevel, SlugBase);
  }

  /** The base slug of each entry's text, in order. */
  function Bases(out: seq<TocItem>, baseOf: string -> string): (r: seq<string>)
    ensures |r| == |out|
  {
    seq(|out|, j requires 0 <= j < |out| => baseOf(out[j].text))
  }

  function Ids(out: seq<TocItem>): (r: seq<string>)
    ensures |r| == |out|
  {
    seq(|out|, j requires 0 <= j < |out| => out[j].id)
  }

  /** One more entry: one more base and one more id, at the end. */
  lemma {:induction false} BasesAndIdsSnoc(out: seq<TocItem>, e: TocItem, baseOf: string -> string)
    ensures Bases(out + [e], baseOf) == Bases(out, baseOf) + [baseOf(e.text)]
    ensures Ids(out + [e]) == Ids(out) + [e.id]
    ensures (Bases(out, baseOf) + [baseOf(e.text)])[..|out|] == Bases(out, baseOf)
  {
    var bs := Bases(out + [e], baseOf);
    var ids := Ids(out + [e]);
    assert forall j :: 0 <= j < |out| ==> bs[j] == Bases(out, baseOf)[j];
    assert forall j :: 0 <= j < |out| ==> ids[j] == Ids(out)[j];
  }

  /** The scan's counts are those of a fresh slugger called on the entries' texts, and its
      ids are the ones that slugger returns: headings skipped for their level, fence lines
      and other lines take no part in the numbering. */
  lemma {:induction false} RunIsSluggerRun(kinds: seq<LineKind>, minLevel: int, maxLevel: int, baseOf: string -> string)
    ensures var st := Run(kinds, minLevel, maxLevel, baseOf);
      st.counts == CountsAfter(Bases(st.out, baseOf)) && Ids(st.out) == IdsFor(Bases(st.out, baseOf))
  {
    if kinds != [] {
      var init := kinds[..|kinds| - 1];
      RunIsSluggerRun(init, minLevel, maxLevel, baseOf);
      StepKeepsSlugger(Run(init, minLevel, maxLevel, baseOf), kinds[|kinds| - 1], minLevel, maxLevel, baseOf);
    }
  }

  /** The scan agrees with a fresh slugger called on its entries' texts. */
  ghost predicate InLineWithSlugger(st: Scan, baseOf: string -> string) {
    st.counts == CountsAfter(Bases(st.out, baseOf)) && Ids(st.out) == IdsFor(Bases(st.out, baseOf))
  }

  lemma {:induction false} StepKeepsSlugger(st: Scan, k: LineKind, minLevel: int, maxLevel: int, baseOf: string -> string)
    requires InLineWithSlugger(st, baseOf)
    ensures InLineWithSlugger(Step(st, k, minLevel, maxLevel, baseOf), baseOf)
  {
    if k.HeadingLine? && !st.inCode && minLevel <= k.level <= maxLevel {
      var b := baseOf(k.text);
      StepOfHeading(st, k.level, k.text, b, minLevel, maxLevel, baseOf);
      SluggerStep(st.out, st.counts, TocItem(Suffixed(b, CountOf(st.counts, b)), k.text, k.level), b, baseOf);
    } else {
      StepEffect(st, k, minLevel, maxLevel, baseOf);
    }
  }

  /** One more heading keeps the scan in line with the slugger's own run. */
  lemma {:induction false} SluggerStep(out: seq<TocItem>, counts: map<string, nat>, e: TocItem, b: string, baseOf: string -> string)
    requires counts == CountsAfter(Bases(out, baseOf)) && Ids(out) == IdsFor(Bases(out, baseOf))
    requires b == baseOf(e.text) && e.id == Suffixed(b, CountOf(counts, b))
    ensures counts[b := CountOf(counts, b) + 1] == CountsAfter(Bases(out + [e], baseOf))
    ensures Ids(out + [e]) == IdsFor(Bases(out + [e], baseOf))
  {
    BasesAndIdsSnoc(out, e, baseOf);
    var bs := Bases(out, baseOf) + [b];
    assert bs[..|bs| - 1] == Bases(out, baseOf) && bs[|bs| - 1] == b;
  }

  /** The collision numbering of `extractToc`: the `j`-th entry's id is the base slug of its
      text, suffixed with the number of earlier entries of the same base (no suffix for the
      first). */
  lemma {:induction false} ExtractTocNumbering(markdown: string, minLevel: int, maxLevel: int, j: nat)
    requires j < |ExtractTocSpec(markdown, minLevel, maxLevel)|
    ensures var out := ExtractTocSpec(markdown, minLevel, maxLevel);
      out[j].id == Suffixed(SlugBase(out[j].text), Occurrences(Bases(out[..j], SlugBase), SlugBase(out[j].text)))
  {
    var kinds := Kinds(Split(markdown, '\n'));
    var out := Run(kinds, minLevel, maxLevel, SlugBase).out;
    RunIsSluggerRun(kinds, minLevel, maxLevel, SlugBase);
    EntryNumbering(out, j, SlugBase);
  }

  /** The numbering lemma of the slugger, read on entries. */
  lemma {:induction false} EntryNumbering(out: seq<TocItem>, j: nat, baseOf: string -> string)
    requires j < |out| && Ids(out) == IdsFor(Bases(out, baseOf))
    ensures out[j].id == Suffixed(baseOf(out[j].text), Occurrences(Bases(out[..j], baseOf), baseOf(out[j].text)))
  {
    IdsNumbering(Bases(out, baseOf));
    assert Bases(out, baseOf)[..j] == Bases(out[..j], baseOf);
    assert Ids(out)[j] == out[j].id;
  }

  /** Empty markdown has no entries. */
  lemma {:induction false} ExtractTocEmpty(minLevel: int, maxLevel: int)
    ensures ExtractTocSpec("", minLevel, maxLevel) == []
  {
    assert Split("", '\n') == [""];
    assert TrimEnd("") == "";
    assert !IsFence("");
    assert ParseHeading("").None?;
    assert Classify("") == OtherLine;
    assert Kinds([""]) == [OtherLine];
    assert [OtherLine][..0] == [];
    assert Run([OtherLine], minLevel, maxLevel, SlugBase)
        == Step(Run([], minLevel, maxLevel, SlugBase), OtherLine, minLevel, maxLevel, SlugBase);
  }

  /** `TocSidebar`'s indentation class for an entry of a given level. */
  function Indent(level: int): string {
    if level == 1 then "pl-0" else if level == 2 then "pl-3" else "pl-6"
  }

  /** With the page's levels 1 to 3, two entries get the same indentation exactly when they
      have the same level. */
  lemma {:induction false} IndentShowsLevel(markdown: string, i: nat, j: nat)
    requires i < |ExtractTocSpec(markdown, 1, 3)| && j < |ExtractTocSpec(markdown, 1, 3)|
    ensures var out := ExtractTocSpec(markdown, 1, 3);
      Indent(out[i].level) == Indent(out[j].level) <==> out[i].level == out[j].level
  {
    var out := ExtractTocSpec(markdown, 1, 3);
    ExtractTocLevels(markdown, 1, 3);
    IndentInjective(out[i].level, out[j].level);
  }

  /** The three indentation classes are distinct. */
  lemma {:induction false} IndentInjective(a: int, b: int)
    requires 1 <= a <= 3 && 1 <= b <= 3
    ensures Indent(a) == Indent(b) <==> a == b
  {
    assert "pl-0"[3] == '0' && "pl-3"[3] == '3' && "pl-6"[3] == '6';
  }
}
