/** The heading slugger of the blog detail page: `baseSlug`, a chain of normalisations of
    a heading's text, and `createSlugger`, a closure over a map of collision counts that
    numbers repeated base slugs `-1`, `-2`, ... */
module Slugging {
  import opened Strings

  /** The characters a slug is made of once normalised: lower-case letters, digits, `-`. */
  predicate IsSlugChar(c: char) {
    ('a' <= c <= 'z') || IsHangul(c) || IsDigit(c) || c == '-'
  }

  predicate NoDoubleDash(s: string) {
    forall i :: 0 <= i < |s| - 1 ==> !(s[i] == '-' && s[i + 1] == '-')
  }

  /** What `baseSlug` promises of a result: slug characters only, no `--`, no `-` at either end. */
  predicate SlugShape(s: string) {
    && (forall i :: 0 <= i < |s| ==> IsSlugChar(s[i]))
    && NoDoubleDash(s)
    && (s == [] || (s[0] != '-' && s[|s| - 1] != '-'))
  }

  predicate SlugChars(s: string) {
    forall i :: 0 <= i < |s| ==> IsSlugChar(s[i])
  }

  predicate NoUpper(s: string) {
    forall i :: 0 <= i < |s| ==> !IsUpper(s[i])
  }

  predicate SlugCharsOrSpace(s: string) {
    forall i :: 0 <= i < |s| ==> IsSlugChar(s[i]) || IsSpace(s[i])
  }

  function LowerChar(c: char): char {
    if IsUpper(c) then (c as int + 32) as char else c
  }

  /** `toLowerCase`, on the letters this model knows (only ASCII letters have case). */
  function Lower(s: string): (r: string)
    ensures |r| == |s|
  {
    if s == [] then [] else [LowerChar(s[0])] + Lower(s[1..])
  }

  /** The characters `/[^\p{L}\p{N}\s-]/gu` does not delete. */
  predicate Kept(c: char) {
    IsLetter(c) || IsDigit(c) || IsSpace(c) || c == '-'
  }

  /** `.replace(/[^\p{L}\p{N}\s-]/gu, "")`. */
  function KeepSlugChars(s: string): string {
    if s == [] then []
    else (if Kept(s[0]) then [s[0]] else []) + KeepSlugChars(s[1..])
  }

  /** `.replace(/\s+/g, "-")`: every run of white space becomes one `-`. */
  function DashSpaces(s: string): string
    decreases |s|
  {
    if s == [] then []
    else if IsSpace(s[0]) then "-" + DashSpaces(TrimStart(s[1..]))
    else [s[0]] + DashSpaces(s[1..])
  }

  /** `s` without its leading run of `-`. */
  function DropDashes(s: string): (r: string)
    ensures |r| <= |s| && r == s[|s| - |r|..]
    ensures r == [] || r[0] != '-'
  {
    if s != [] && s[0] == '-' then DropDashes(s[1..]) else s
  }

  /** `.replace(/-+/g, "-")`: every run of `-` becomes one `-`. */
  function CollapseDashes(s: string): (r: string)
    ensures |s| > 0 ==> |r| > 0 && r[0] == s[0]
    decreases |s|
  {
    if s == [] then []
    else if s[0] == '-' then "-" + CollapseDashes(DropDashes(s[1..]))
    else [s[0]] + CollapseDashes(s[1..])
  }

  /** `.replace(/^-|-$/g, "")`: one `-` off the front, then one off the back. */
  function StripDashes(s: string): string {
    var a := if s != [] && s[0] == '-' then s[1..] else s;
    if a != [] && a[|a| - 1] == '-' then a[..|a| - 1] else a
  }

  /** One link of the method chain of `baseSlug`. */
  datatype Pass = TrimPass | LowerPass | KeepPass | DashPass | CollapsePass | StripPass

  function RunPass(p: Pass, s: string): string {
    match p
    case TrimPass => Trim(s)
    case LowerPass => Lower(s)
    case KeepPass => KeepSlugChars(s)
    case DashPass => DashSpaces(s)
    case CollapsePass => CollapseDashes(s)
    case StripPass => StripDashes(s)
  }

  /** The passes applied left to right, as a method chain applies them: the last pass
      works on what the ones before it left. */
  function RunPasses(ps: seq<Pass>, s: string): string {
    if ps == [] then s else RunPass(ps[|ps| - 1], RunPasses(ps[..|ps| - 1], s))
  }

  /** `text.trim().toLowerCase().replace(...)...`: the chain of `baseSlug`, in order. */
  const SlugPasses: seq<Pass> := [TrimPass, LowerPass, KeepPass, DashPass, CollapsePass, StripPass]

  /** `baseSlug(text)`. */
  function BaseSlug(text: string): string {
    RunPasses(SlugPasses, text)
  }

  /** One more pass at the end of the chain is applied last. */
  lemma {:induction false} RunPassesSnoc(ps: seq<Pass>, p: Pass, s: string)
    ensures RunPasses(ps + [p], s) == RunPass(p, RunPasses(ps, s))
  {
    assert (ps + [p])[..|ps|] == ps;
  }

  /** The chain written out as nested calls. */
  lemma {:induction false} BaseSlugIsChain(text: string)
    ensures BaseSlug(text) == StripDashes(CollapseDashes(DashSpaces(KeepSlugChars(Lower(Trim(text))))))
  {
    var q0: seq<Pass> := [];
    RunPassesSnoc(q0, TrimPass, text);
    var q1 := q0 + [TrimPass];
    RunPassesSnoc(q1, LowerPass, text);
    var q2 := q1 + [LowerPass];
    RunPassesSnoc(q2, KeepPass, text);
    var q3 := q2 + [KeepPass];
    RunPassesSnoc(q3, DashPass, text);
    var q4 := q3 + [DashPass];
    RunPassesSnoc(q4, CollapsePass, text);
    var q5 := q4 + [CollapsePass];
    RunPassesSnoc(q5, StripPass, text);
    assert q5 + [StripPass] == SlugPasses;
  }

  lemma {:induction false} LowerHasNoUpper(s: string)
    ensures NoUpper(Lower(s))
  {
    if s != [] {
      LowerHasNoUpper(s[1..]);
      assert Lower(s) == [LowerChar(s[0])] + Lower(s[1..]);
    }
  }

  lemma {:induction false} KeptAreSlugCharsOrSpace(s: string)
    requires NoUpper(s)
    ensures SlugCharsOrSpace(KeepSlugChars(s))
  {
    if s != [] {
      assert NoUpper(s[1..]);
      KeptAreSlugCharsOrSpace(s[1..]);
    }
  }

  lemma {:induction false} SlugCharIsNotSpace(c: char)
    requires IsSlugChar(c)
    ensures !IsSpace(c)
  {
  }

  lemma {:induction false} ConsSlugChars(c: char, r: string)
    requires IsSlugChar(c) && SlugChars(r)
    ensures SlugChars([c] + r)
  {
    forall i | 0 < i < |[c] + r| ensures IsSlugChar(([c] + r)[i]) {
      assert ([c] + r)[i] == r[i - 1];
    }
  }

  lemma {:induction false} ConsNoDoubleDash(c: char, r: string)
    requires NoDoubleDash(r) && (c != '-' || r == [] || r[0] != '-')
    ensures NoDoubleDash([c] + r)
  {
    var cr := [c] + r;
    forall i | 0 <= i < |cr| - 1 ensures !(cr[i] == '-' && cr[i + 1] == '-') {
      assert cr[i + 1] == r[i];
      if i > 0 {
        assert cr[i] == r[i - 1];
      }
    }
  }

  lemma {:induction false} DashSpacesGivesSlugChars(s: string)
    requires SlugCharsOrSpace(s)
    ensures SlugChars(DashSpaces(s))
    decreases |s|
  {
    if s != [] {
      assert SlugCharsOrSpace(s[1..]);
      if IsSpace(s[0]) {
        var t := TrimStart(s[1..]);
        assert t == s[1..][|s[1..]| - |t|..];
        assert SlugCharsOrSpace(t);
        DashSpacesGivesSlugChars(t);
        ConsSlugChars('-', DashSpaces(t));
      } else {
        DashSpacesGivesSlugChars(s[1..]);
        ConsSlugChars(s[0], DashSpaces(s[1..]));
      }
    }
  }

  lemma {:induction false} CollapseGivesNoDoubleDash(s: string)
    requires SlugChars(s)
    ensures SlugChars(CollapseDashes(s)) && NoDoubleDash(CollapseDashes(s))
    decreases |s|
  {
    if s != [] {
      assert SlugChars(s[1..]);
      if s[0] == '-' {
        var t := DropDashes(s[1..]);
        assert t == s[1..][|s[1..]| - |t|..];
        assert SlugChars(t);
        CollapseGivesNoDoubleDash(t);
        ConsSlugChars('-', CollapseDashes(t));
        ConsNoDoubleDash('-', CollapseDashes(t));
        assert CollapseDashes(s) == ['-'] + CollapseDashes(t);
      } else {
        CollapseGivesNoDoubleDash(s[1..]);
        ConsSlugChars(s[0], CollapseDashes(s[1..]));
        ConsNoDoubleDash(s[0], CollapseDashes(s[1..]));
        assert CollapseDashes(s) == [s[0]] + CollapseDashes(s[1..]);
      }
    }
  }

  lemma {:induction false} StripGivesSlugShape(s: string)
    requires SlugChars(s) && NoDoubleDash(s)
    ensures SlugShape(StripDashes(s))
  {
    var a := if s != [] && s[0] == '-' then s[1..] else s;
    assert SlugChars(a) && NoDoubleDash(a);
    if a != [] && a[|a| - 1] == '-' {
      var b := a[..|a| - 1];
      assert SlugChars(b) && NoDoubleDash(b);
      if b != [] {
        assert b[|b| - 1] == a[|a| - 2];
      }
    }
  }

  /** On any text, `baseSlug` yields slug characters only, with no `--` and no `-` at its ends. */
  lemma {:induction false} BaseSlugShape(text: string)
    ensures SlugShape(BaseSlug(text))
  {
    BaseSlugIsChain(text);
    var t2 := Lower(Trim(text));
    LowerHasNoUpper(Trim(text));
    KeptAreSlugCharsOrSpace(t2);
    var t4 := DashSpaces(KeepSlugChars(t2));
    DashSpacesGivesSlugChars(KeepSlugChars(t2));
    CollapseGivesNoDoubleDash(t4);
    StripGivesSlugShape(CollapseDashes(t4));
  }

  lemma {:induction false} LowerOfSlugChars(s: string)
    requires SlugChars(s)
    ensures Lower(s) == s
  {
    if s != [] {
      assert SlugChars(s[1..]);
      LowerOfSlugChars(s[1..]);
    }
  }

  lemma {:induction false} KeepOfSlugChars(s: string)
    requires SlugChars(s)
    ensures KeepSlugChars(s) == s
  {
    if s != [] {
      assert SlugChars(s[1..]);
      KeepOfSlugChars(s[1..]);
    }
  }

  lemma {:induction false} DashSpacesOfSlugChars(s: string)
    requires SlugChars(s)
    ensures DashSpaces(s) == s
  {
    if s != [] {
      assert SlugChars(s[1..]);
      SlugCharIsNotSpace(s[0]);
      DashSpacesOfSlugChars(s[1..]);
      assert s == [s[0]] + s[1..];
    }
  }

  lemma {:induction false} CollapseOfNoDoubleDash(s: string)
    requires NoDoubleDash(s)
    ensures CollapseDashes(s) == s
  {
    if s != [] {
      assert NoDoubleDash(s[1..]);
      CollapseOfNoDoubleDash(s[1..]);
      if s[0] == '-' && |s| > 1 {
        assert DropDashes(s[1..]) == s[1..];
      }
    }
  }

  /** Each pass of the chain leaves a text already in slug shape as it is. */
  lemma {:induction false} PassFixesSlug(p: Pass, s: string)
    requires SlugShape(s)
    ensures RunPass(p, s) == s
  {
    match p
    case TrimPass => TrimOfSlug(s);
    case LowerPass => LowerOfSlugChars(s);
    case KeepPass => KeepOfSlugChars(s);
    case DashPass => DashSpacesOfSlugChars(s);
    case CollapsePass => CollapseOfNoDoubleDash(s);
    case StripPass => StripOfSlug(s);
  }

  lemma {:induction false} TrimOfSlug(s: string)
    requires SlugShape(s)
    ensures Trim(s) == s
  {
    if s != [] {
      SlugCharIsNotSpace(s[0]);
      assert TrimStart(s) == s;
      SlugCharIsNotSpace(s[|s| - 1]);
      assert TrimEnd(s) == s;
    }
  }

  lemma {:induction false} StripOfSlug(s: string)
    requires SlugShape(s)
    ensures StripDashes(s) == s
  {
  }

  lemma {:induction false} PassesFixSlug(ps: seq<Pass>, s: string)
    requires SlugShape(s)
    ensures RunPasses(ps, s) == s
  {
    if ps != [] {
      PassesFixSlug(ps[..|ps| - 1], s);
      PassFixesSlug(ps[|ps| - 1], s);
    }
  }

  /** A text already in slug shape is its own base slug. */
  lemma {:induction false} BaseSlugOfSlug(s: string)
    requires SlugShape(s)
    ensures BaseSlug(s) == s
  {
    PassesFixSlug(SlugPasses, s);
  }

  /** A non-empty slug is its own base, so the slugger keeps it as it is. */
  lemma {:induction false} SlugBaseOfSlug(s: string)
    requires s != [] && SlugShape(s)
    ensures SlugBase(s) == s
  {
    BaseSlugOfSlug(s);
  }

  /** `baseSlug` is idempotent. */
  lemma {:induction false} BaseSlugIdempotent(text: string)
    ensures BaseSlug(BaseSlug(text)) == BaseSlug(text)
  {
    BaseSlugShape(text);
    BaseSlugOfSlug(BaseSlug(text));
  }

  /** The fallback for a text whose base slug is empty. */
  const Section: string := "section"

  /** `baseSlug(text) || "section"`: the key the collision counts are kept under. */
  function SlugBase(text: string): (b: string)
    ensures b != []
  {
    var b := BaseSlug(text);
    if b == [] then Section else b
  }

  lemma {:induction false} SlugBaseShape(text: string)
    ensures SlugShape(SlugBase(text))
  {
    if BaseSlug(text) == [] {
      SectionShape();
    } else {
      BaseSlugShape(text);
    }
  }

  lemma {:induction false} SectionShape()
    ensures SlugShape(Section)
  {
    var s := Section;
    forall i | 0 <= i < |s| ensures IsSlugChar(s[i]) {
      assert 'a' <= s[i] <= 'z';
    }
  }

  /** `counts.get(base) ?? 0`. */
  function CountOf(counts: map<string, nat>, base: string): nat {
    if base in counts then counts[base] else 0
  }

  /** What the slugger returns for a base it has already handed out `n` times. */
  function Suffixed(base: string, n: nat): string {
    if n == 0 then base else base + "-" + NatToString(n)
  }

  /** Every id the slugger returns is a non-empty slug: its base, or its base, `-` and a count. */
  lemma {:induction false} SuffixedShape(b: string, n: nat)
    requires b != [] && SlugShape(b)
    ensures Suffixed(b, n) != []
    ensures SlugShape(Suffixed(b, n))
  {
    if n > 0 {
      var d := NatToString(n);
      var r := b + "-" + d;
      assert forall i :: 0 <= i < |r| ==> IsSlugChar(r[i]) by {
        forall i | 0 <= i < |r| ensures IsSlugChar(r[i]) {
          if i < |b| { assert r[i] == b[i]; }
          else if i > |b| { assert r[i] == d[i - |b| - 1]; }
        }
      }
      assert NoDoubleDash(r) by {
        forall i | 0 <= i < |r| - 1 ensures !(r[i] == '-' && r[i + 1] == '-') {
          if i + 1 < |b| { assert r[i] == b[i] && r[i + 1] == b[i + 1]; }
          else if i + 1 == |b| { assert r[i] == b[i]; }
          else { assert r[i + 1] == d[i - |b|]; }
        }
      }
      assert r[|r| - 1] == d[|d| - 1];
    }
  }

  /** The closure `createSlugger()` returns, with the `Map` it closes over as a field. */
  class Slugger {
    var counts: map<string, nat>

    constructor ()
      ensures counts == map[]
    {
      counts := map[];
    }

    /** One call of `slug(text)`: the base's count goes up by exactly one, no other count
        changes, and the id is the bare base the first time, `base-n` the `n`-th time after. */
    method Slug(text: string) returns (id: string)
      modifies this
      ensures counts == old(counts)[SlugBase(text) := CountOf(old(counts), SlugBase(text)) + 1]
      ensures id == Suffixed(SlugBase(text), CountOf(old(counts), SlugBase(text)))
    {
      var base := BaseSlug(text);
      if base == [] {
        base := "section";
      }
      var n := if base in counts then counts[base] else 0;
      counts := counts[base := n + 1];
      id := if n == 0 then base else base + "-" + NatToString(n);
    }
  }

  /** The counts a fresh slugger holds once it was called on texts with these base slugs. */
  function CountsAfter(bases: seq<string>): map<string, nat> {
    if bases == [] then map[]
    else
      var c := CountsAfter(bases[..|bases| - 1]);
      var b := bases[|bases| - 1];
      c[b := CountOf(c, b) + 1]
  }

  /** The ids a fresh slugger returns when called on texts with these base slugs, in order. */
  function IdsFor(bases: seq<string>): seq<string> {
    if bases == [] then []
    else
      var init := bases[..|bases| - 1];
      var b := bases[|bases| - 1];
      IdsFor(init) + [Suffixed(b, CountOf(CountsAfter(init), b))]
  }

  /** How many of `bases` are `b`. */
  function Occurrences(bases: seq<string>, b: string): nat {
    if bases == [] then 0
    else Occurrences(bases[..|bases| - 1], b) + (if bases[|bases| - 1] == b then 1 else 0)
  }

  /** Each base's count is the number of calls so far with that base. */
  lemma {:induction false} CountsAreOccurrences(bases: seq<string>, b: string)
    ensures CountOf(CountsAfter(bases), b) == Occurrences(bases, b)
  {
    if bases != [] {
      CountsAreOccurrences(bases[..|bases| - 1], b);
    }
  }

  /** The collision numbering: the `j`-th id is its base with, as suffix, the number of
      earlier calls with the same base, and no suffix for the first one. */
  lemma {:induction false} IdsNumbering(bases: seq<string>)
    ensures |IdsFor(bases)| == |bases|
    ensures forall j :: 0 <= j < |bases| ==>
      IdsFor(bases)[j] == Suffixed(bases[j], Occurrences(bases[..j], bases[j]))
  {
    IdsLength(bases);
    forall j | 0 <= j < |bases|
      ensures IdsFor(bases)[j] == Suffixed(bases[j], Occurrences(bases[..j], bases[j]))
    {
      IdAt(bases, j);
    }
  }

  /** One id per call. */
  lemma {:induction false} IdsLength(bases: seq<string>)
    ensures |IdsFor(bases)| == |bases|
  {
    if bases != [] {
      IdsLength(bases[..|bases| - 1]);
    }
  }

  /** The id of the `j`-th call. */
  lemma {:induction false} IdAt(bases: seq<string>, j: nat)
    requires j < |bases|
    ensures |IdsFor(bases)| == |bases|
    ensures IdsFor(bases)[j] == Suffixed(bases[j], Occurrences(bases[..j], bases[j]))
  {
    var init := bases[..|bases| - 1];
    var b := bases[|bases| - 1];
    IdsLength(bases);
    IdsLength(init);
    assert IdsFor(bases) == IdsFor(init) + [Suffixed(b, CountOf(CountsAfter(init), b))];
    if j < |init| {
      IdAt(init, j);
      assert bases[..j] == init[..j] && bases[j] == init[j];
    } else {
      CountsAreOccurrences(init, b);
      assert bases[..j] == init;
    }
  }

  /** The first call with a given base gets the bare base; a later one never does. */
  lemma {:induction false} BareIffFirst(bases: seq<string>, j: nat)
    requires j < |bases|
    ensures |IdsFor(bases)| == |bases|
    ensures IdsFor(bases)[j] == bases[j] <==> Occurrences(bases[..j], bases[j]) == 0
  {
    IdsNumbering(bases);
    var n := Occurrences(bases[..j], bases[j]);
    if n > 0 {
      assert |Suffixed(bases[j], n)| > |bases[j]|;
    }
  }

  /** Ids are not unique: headings `a`, `a`, `a-1` have bases `a`, `a`, `a-1` ... */
  lemma {:induction false} BaseOfPlainHeading()
    ensures SlugBase("a") == "a"
  {
    var s := "a";
    assert IsSlugChar(s[0]);
    SlugBaseOfSlug(s);
  }

  /** ... and `a-1` is a base of its own, the same as the id the second `a` gets ... */
  lemma {:induction false} BaseOfSuffixedHeading()
    ensures SlugBase("a-1") == "a-1"
  {
    var s := "a-1";
    assert IsSlugChar(s[0]) && IsSlugChar(s[1]) && IsSlugChar(s[2]);
    assert NoDoubleDash(s);
    SlugBaseOfSlug(s);
  }

  /** ... and get ids `a`, `a-1`, `a-1`: counts are kept per base slug, and a suffixed id
      of one base can be the bare base of another. */
  lemma {:induction false} CollisionAcrossBases()
    ensures IdsFor(["a", "a", "a-1"]) == ["a", "a-1", "a-1"]
  {
    var bases := ["a", "a", "a-1"];
    IdsNumbering(bases);
    assert bases[..1] == ["a"] && bases[..0] == [] && bases[..2] == ["a", "a"];
    assert Occurrences(["a"], "a") == 1;
    assert Occurrences(["a", "a"], "a-1") == 0 by {
      assert ["a", "a"][..1] == ["a"];
    }
    assert NatToString(1) == "1";
    var ids := IdsFor(bases);
    assert ids[0] == "a";
    assert ids[1] == "a" + "-" + "1" == "a-1";
    assert ids[2] == "a-1";
    assert |ids| == 3;
  }
}
