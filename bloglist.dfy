/** The blog list page: the `cx` class-name helper, the tag chips with their counts, the tag
    filter, the page-by-page reveal of the list with its `loadMore` guard, and the rotation
    of the featured post. */
module BlogList {
  import opened Wrappers
  import opened Strings
  import opened Posts

  function Min(a: int, b: int): int {
    if a <= b then a else b
  }

  // ---------------------------------------------------------------------------------------
  // cx

  /** An argument of `cx`: a string, or one of the falsy placeholders callers pass. */
  datatype ClassArg = Str(s: string) | False | Null | Undefined

  /** `cls.filter(Boolean)`: the non-empty strings, in order (the empty string is falsy). */
  function Truthy(args: seq<ClassArg>): (r: seq<string>)
    ensures forall i :: 0 <= i < |r| ==> r[i] != []
  {
    if args == [] then []
    else
      var init := Truthy(args[..|args| - 1]);
      var last := args[|args| - 1];
      if last.Str? && last.s != [] then init + [last.s] else init
  }

  /** `cx(...cls)`. */
  function Cx(args: seq<ClassArg>): string {
    Join(Truthy(args), ' ')
  }

  /** The class names `cx` keeps are exactly the non-empty string arguments. */
  lemma {:induction false} TruthyMembers(args: seq<ClassArg>, c: string)
    ensures c in Truthy(args) <==> c != [] && Str(c) in args
  {
    if args != [] {
      var init := args[..|args| - 1];
      TruthyMembers(init, c);
      assert args == init + [args[|args| - 1]];
    }
  }

  /** `filter` works argument by argument: the kept names of two argument lists are those
      of the first followed by those of the second. */
  lemma {:induction false} TruthyAppend(xs: seq<ClassArg>, ys: seq<ClassArg>)
    ensures Truthy(xs + ys) == Truthy(xs) + Truthy(ys)
    decreases |ys|
  {
    if ys == [] {
      assert xs + ys == xs;
    } else {
      var init := ys[..|ys| - 1];
      TruthyAppend(xs, init);
      assert (xs + ys)[..|xs + ys| - 1] == xs + init;
    }
  }

  /** One argument is kept, as itself, exactly when it is a non-empty string. With
      `TruthyAppend` this fixes `Truthy` completely: order and repeats included. */
  lemma {:induction false} TruthyOne(a: ClassArg)
    ensures Truthy([a]) == (if a.Str? && a.s != [] then [a.s] else [])
  {
  }

  /** `cx` and its falsy arguments: dropping them, or adding more, changes nothing. */
  lemma {:induction false} TruthyIgnoresFalsy(args: seq<ClassArg>, a: ClassArg)
    requires !(a.Str? && a.s != [])
    ensures Truthy(args + [a]) == Truthy(args)
    ensures Truthy([a] + args) == Truthy(args)
  {
    assert (args + [a])[..|args|] == args;
    if args != [] {
      var init := args[..|args| - 1];
      TruthyIgnoresFalsy(init, a);
      assert ([a] + args)[..|args|] == [a] + init;
    } else {
      assert [a] + args == [a];
      assert [a][..0] == [];
    }
  }

  /** Splitting `cx`'s result at spaces gives back the class names it was given, when they
      hold no space themselves: nothing is lost or merged. */
  lemma {:induction false} CxSplit(args: seq<ClassArg>)
    requires Truthy(args) != []
    requires forall i :: 0 <= i < |Truthy(args)| ==> ' ' !in Truthy(args)[i]
    ensures Split(Cx(args), ' ') == Truthy(args)
  {
    SplitJoin(Truthy(args), ' ');
  }

  /** With no truthy argument, `cx` gives the empty class string. */
  lemma {:induction false} CxNone(args: seq<ClassArg>)
    requires forall i :: 0 <= i < |args| ==> !(args[i].Str? && args[i].s != [])
    ensures Cx(args) == ""
  {
    if Truthy(args) != [] {
      TruthyMembers(args, Truthy(args)[0]);
    }
  }

  // ---------------------------------------------------------------------------------------
  // allTagsWithCount

  /** Every tag of every post, post by post, in order. */
  function AllTags(posts: seq<Post>): seq<string> {
    if posts == [] then [] else AllTags(posts[..|posts| - 1]) + posts[|posts| - 1].tags
  }

  /** How many times `t` occurs in `xs`. */
  function Count(xs: seq<string>, t: string): nat {
    if xs == [] then 0 else Count(xs[..|xs| - 1], t) + (if xs[|xs| - 1] == t then 1 else 0)
  }

  /** The distinct values of `xs`, in order of first occurrence: the key order of a JavaScript
      `Map` filled from `xs`. */
  function Distinct(xs: seq<string>): seq<string> {
    if xs == [] then []
    else
      var init := xs[..|xs| - 1];
      Distinct(init) + (if xs[|xs| - 1] in init then [] else [xs[|xs| - 1]])
  }

  lemma {:induction false} DistinctMembers(xs: seq<string>)
    ensures forall t :: t in Distinct(xs) <==> t in xs
    ensures forall i, j :: 0 <= i < j < |Distinct(xs)| ==> Distinct(xs)[i] != Distinct(xs)[j]
  {
    if xs != [] {
      var init := xs[..|xs| - 1];
      DistinctMembers(init);
      assert xs == init + [xs[|xs| - 1]];
    }
  }

  lemma {:induction false} CountPositive(xs: seq<string>, t: string)
    ensures t in xs <==> Count(xs, t) > 0
  {
    if xs != [] {
      var init := xs[..|xs| - 1];
      CountPositive(init, t);
      assert xs == init + [xs[|xs| - 1]];
    }
  }

  /** One tag with its number of occurrences: an entry of the `Map`. */
  datatype TagCount = TagCount(tag: string, count: nat)

  /** `Array.from(map.entries())` once the loops are done. */
  function TagEntries(posts: seq<Post>): (r: seq<TagCount>) {
    var all := AllTags(posts);
    var keys := Distinct(all);
    seq(|keys|, k requires 0 <= k < |keys| => TagCount(keys[k], Count(all, keys[k])))
  }

  /** Insert `x` after every entry counted at least as often: the stable place of a sort by
      `b[1] - a[1]`. */
  function Insert(x: TagCount, ys: seq<TagCount>): (r: seq<TagCount>)
    ensures |r| == |ys| + 1
  {
    if ys == [] then [x]
    else if ys[0].count >= x.count then [ys[0]] + Insert(x, ys[1..])
    else [x] + ys
  }

  /** `.sort((a, b) => b[1] - a[1])`, which is stable: a stable insertion sort by count, most
      frequent first. */
  function SortByCount(xs: seq<TagCount>): (r: seq<TagCount>)
    ensures |r| == |xs|
  {
    if xs == [] then [] else Insert(xs[|xs| - 1], SortByCount(xs[..|xs| - 1]))
  }

  /** Most frequent first: no entry is counted more often than one before it. */
  predicate SortedByCount(xs: seq<TagCount>) {
    forall i, j :: 0 <= i < j < |xs| ==> xs[i].count >= xs[j].count
  }

  /** Each entry is counted at least as often as the next one. */
  predicate Descending(xs: seq<TagCount>) {
    forall i :: 0 <= i < |xs| - 1 ==> xs[i].count >= xs[i + 1].count
  }

  lemma {:induction false} DescendingFrom(xs: seq<TagCount>, i: nat, j: nat)
    requires Descending(xs) && i <= j < |xs|
    ensures xs[i].count >= xs[j].count
    decreases j - i
  {
    if i < j {
      DescendingFrom(xs, i + 1, j);
    }
  }

  lemma {:induction false} DescendingIsSorted(xs: seq<TagCount>)
    requires Descending(xs)
    ensures SortedByCount(xs)
  {
    forall i, j | 0 <= i < j < |xs| ensures xs[i].count >= xs[j].count {
      DescendingFrom(xs, i, j);
    }
  }

  lemma {:induction false} InsertMembers(x: TagCount, ys: seq<TagCount>)
    ensures forall z :: z in Insert(x, ys) <==> z == x || z in ys
  {
    if ys != [] && ys[0].count >= x.count {
      InsertMembers(x, ys[1..]);
      assert ys == [ys[0]] + ys[1..];
    }
  }

  lemma {:induction false} InsertPermutes(x: TagCount, ys: seq<TagCount>)
    ensures multiset(Insert(x, ys)) == multiset(ys) + multiset{x}
  {
    if ys != [] && ys[0].count >= x.count {
      InsertPermutes(x, ys[1..]);
      assert ys == [ys[0]] + ys[1..];
    }
  }

  lemma {:induction false} InsertHead(x: TagCount, ys: seq<TagCount>)
    ensures Insert(x, ys)[0] == x || (ys != [] && Insert(x, ys)[0] == ys[0])
  {
  }

  lemma {:induction false} InsertDescending(x: TagCount, ys: seq<TagCount>)
    requires Descending(ys)
    ensures Descending(Insert(x, ys))
  {
    if ys != [] && ys[0].count >= x.count {
      var rest := Insert(x, ys[1..]);
      InsertDescending(x, ys[1..]);
      InsertHead(x, ys[1..]);
      var r := Insert(x, ys);
      assert r == [ys[0]] + rest;
      assert r[0].count >= r[1].count;
      forall i | 1 <= i < |r| - 1 ensures r[i].count >= r[i + 1].count {
        assert r[i] == rest[i - 1] && r[i + 1] == rest[i];
      }
    }
  }

  /** The sort gives the same entries, most frequent first. */
  lemma {:induction false} SortByCountSorts(xs: seq<TagCount>)
    ensures multiset(SortByCount(xs)) == multiset(xs)
    ensures Descending(SortByCount(xs))
  {
    SortByCountPermutes(xs);
    SortByCountDescending(xs);
  }

  lemma {:induction false} SortByCountPermutes(xs: seq<TagCount>)
    ensures multiset(SortByCount(xs)) == multiset(xs)
  {
    if xs != [] {
      var init, last := xs[..|xs| - 1], xs[|xs| - 1];
      SortByCountPermutes(init);
      InsertPermutes(last, SortByCount(init));
      assert xs == init + [last];
    }
  }

  lemma {:induction false} SortByCountDescending(xs: seq<TagCount>)
    ensures Descending(SortByCount(xs))
  {
    if xs != [] {
      var init := xs[..|xs| - 1];
      SortByCountDescending(init);
      InsertDescending(xs[|xs| - 1], SortByCount(init));
    }
  }

  /** No tag has two entries. */
  predicate DistinctTags(xs: seq<TagCount>) {
    forall i, j :: 0 <= i < j < |xs| ==> xs[i].tag != xs[j].tag
  }

  /** `DistinctTags`, written head first. */
  predicate NoTagTwice(xs: seq<TagCount>) {
    xs == [] || ((forall z :: z in xs[1..] ==> z.tag != xs[0].tag) && NoTagTwice(xs[1..]))
  }

  lemma {:induction false} NoTagTwiceIsDistinct(xs: seq<TagCount>)
    requires NoTagTwice(xs)
    ensures DistinctTags(xs)
  {
    if xs != [] {
      NoTagTwiceIsDistinct(xs[1..]);
      forall i, j | 0 <= i < j < |xs| ensures xs[i].tag != xs[j].tag {
        assert xs[j] == xs[1..][j - 1];
        if i > 0 {
          assert xs[i] == xs[1..][i - 1];
        }
      }
    }
  }

  lemma {:induction false} InsertNoTagTwice(x: TagCount, ys: seq<TagCount>)
    requires NoTagTwice(ys) && forall z :: z in ys ==> z.tag != x.tag
    ensures NoTagTwice(Insert(x, ys))
  {
    if ys != [] && ys[0].count >= x.count {
      assert forall z :: z in ys[1..] ==> z in ys;
      InsertNoTagTwice(x, ys[1..]);
      InsertMembers(x, ys[1..]);
      assert Insert(x, ys)[1..] == Insert(x, ys[1..]);
    }
  }

  lemma {:induction false} SortByCountNoTagTwice(xs: seq<TagCount>)
    requires DistinctTags(xs)
    ensures NoTagTwice(SortByCount(xs))
  {
    if xs != [] {
      var init := xs[..|xs| - 1];
      var last := xs[|xs| - 1];
      assert DistinctTags(init) by {
        forall i, j | 0 <= i < j < |init| ensures init[i].tag != init[j].tag {
          assert init[i] == xs[i] && init[j] == xs[j];
        }
      }
      SortByCountNoTagTwice(init);
      SortByCountSorts(init);
      forall z | z in SortByCount(init) ensures z.tag != last.tag {
        assert z in multiset(init);
        var k :| 0 <= k < |init| && init[k] == z;
        assert xs[k] == z;
      }
      InsertNoTagTwice(last, SortByCount(init));
    }
  }

  /** `.slice(0, 12)`: the chips shown. */
  const ChipLimit: nat := 12

  /** `allTagsWithCount`. */
  function TopTags(posts: seq<Post>): seq<TagCount> {
    var sorted := SortByCount(TagEntries(posts));
    sorted[..Min(ChipLimit, |sorted|)]
  }

  /** `allTagsWithCount` as the source computes it: nested loops filling a `Map`, then the
      entries sorted and cut. */
  method AllTagsWithCount(posts: seq<Post>) returns (top: seq<TagCount>)
    ensures top == TopTags(posts)
  {
    var keys, counts := CountTags(posts);
    ghost var all := AllTags(posts);
    DistinctMembers(all);
    forall k | 0 <= k < |keys| ensures keys[k] in counts && counts[keys[k]] == Count(all, keys[k]) {
      TagTallyCounts(all, keys[k]);
    }
    var entries := seq(|keys|, k requires 0 <= k < |keys| => TagCount(keys[k], counts[keys[k]]));
    assert entries == TagEntries(posts);
    var sorted := SortByCount(entries);
    top := sorted[..Min(ChipLimit, |sorted|)];
  }

  /** The `Map` after `map.set(t, (map.get(t) ?? 0) + 1)` for each `t` of `xs` in turn. */
  function TagTally(xs: seq<string>): map<string, nat> {
    if xs == [] then map[]
    else
      var m := TagTally(xs[..|xs| - 1]);
      var t := xs[|xs| - 1];
      m[t := (if t in m then m[t] else 0) + 1]
  }

  /** The `Map` holds exactly the tags of `xs`, each with its number of occurrences. */
  lemma {:induction false} TagTallyCounts(xs: seq<string>, t: string)
    ensures t in TagTally(xs) <==> t in xs
    ensures t in TagTally(xs) ==> TagTally(xs)[t] == Count(xs, t)
  {
    if xs != [] {
      var init := xs[..|xs| - 1];
      TagTallyCounts(init, t);
      CountPositive(init, t);
      assert xs == init + [xs[|xs| - 1]];
    }
  }

  /** One more `map.set`: the key order and the counts after it. */
  lemma {:induction false} MapSetStep(xs: seq<string>, t: string)
    ensures Distinct(xs + [t]) == Distinct(xs) + (if t in xs then [] else [t])
    ensures TagTally(xs + [t]) == TagTally(xs)[t := (if t in TagTally(xs) then TagTally(xs)[t] else 0) + 1]
    ensures t in TagTally(xs) <==> t in xs
  {
    assert (xs + [t])[..|xs|] == xs;
    TagTallyCounts(xs, t);
  }

  /** `for (const p of posts) for (const t of p.tags) map.set(t, (map.get(t) ?? 0) + 1)`, with
      the `Map`'s key order as `keys`. */
  method CountTags(posts: seq<Post>) returns (keys: seq<string>, counts: map<string, nat>)
    ensures keys == Distinct(AllTags(posts)) && counts == TagTally(AllTags(posts))
  {
    keys, counts := [], map[];
    var i := 0;
    while i < |posts|
      invariant 0 <= i <= |posts|
      invariant keys == Distinct(AllTags(posts[..i])) && counts == TagTally(AllTags(posts[..i]))
    {
      assert posts[..i + 1][..i] == posts[..i];
      keys, counts := CountPostTags(AllTags(posts[..i]), posts[i].tags, keys, counts);
      i := i + 1;
    }
    assert posts[..i] == posts;
  }

  /** The inner loop, over the tags of one post. */
  lemma {:induction false} SnocPrefix(done: seq<string>, tags: seq<string>, j: nat)
    requires j < |tags|
    ensures done + tags[..j + 1] == (done + tags[..j]) + [tags[j]]
  {
    assert tags[..j + 1] == tags[..j] + [tags[j]];
  }

  method CountPostTags(ghost done: seq<string>, tags: seq<string>, keys0: seq<string>, counts0: map<string, nat>)
    returns (keys: seq<string>, counts: map<string, nat>)
    requires keys0 == Distinct(done) && counts0 == TagTally(done)
    ensures keys == Distinct(done + tags) && counts == TagTally(done + tags)
  {
    keys, counts := keys0, counts0;
    ghost var seen := done;
    var j := 0;
    while j < |tags|
      invariant 0 <= j <= |tags|
      invariant seen == done + tags[..j]
      invariant keys == Distinct(seen) && counts == TagTally(seen)
    {
      var t := tags[j];
      MapSetStep(seen, t);
      if t !in counts {
        keys := keys + [t];
      }
      counts := counts[t := (if t in counts then counts[t] else 0) + 1];
      SnocPrefix(done, tags, j);
      seen := seen + [t];
      j := j + 1;
    }
    assert tags[..j] == tags;
  }

  /** The chips are at most 12, most frequent first, each a tag of some post with its
      number of occurrences. */
  lemma {:induction false} TopTagsShape(posts: seq<Post>)
    ensures |TopTags(posts)| == Min(ChipLimit, |Distinct(AllTags(posts))|)
    ensures SortedByCount(TopTags(posts))
    ensures forall i :: 0 <= i < |TopTags(posts)| ==>
      TopTags(posts)[i].tag in AllTags(posts) && TopTags(posts)[i].count == Count(AllTags(posts), TopTags(posts)[i].tag)
  {
    var entries := TagEntries(posts);
    var sorted := SortByCount(entries);
    var top := TopTags(posts);
    SortByCountSorts(entries);
    DescendingIsSorted(sorted);
    DistinctMembers(AllTags(posts));
    forall i | 0 <= i < |top|
      ensures top[i].tag in AllTags(posts) && top[i].count == Count(AllTags(posts), top[i].tag)
    {
      assert top[i] == sorted[i];
      assert sorted[i] in multiset(entries);
    }
    forall i, j | 0 <= i < j < |top| ensures top[i].count >= top[j].count {
      assert top[i] == sorted[i] && top[j] == sorted[j];
    }
  }

  /** No chip tag appears twice. */
  lemma {:induction false} TopTagsDistinct(posts: seq<Post>)
    ensures DistinctTags(TopTags(posts))
  {
    var entries := TagEntries(posts);
    var sorted := SortByCount(entries);
    var top := TopTags(posts);
    var keys := Distinct(AllTags(posts));
    DistinctMembers(AllTags(posts));
    assert DistinctTags(entries) by {
      forall i, j | 0 <= i < j < |entries| ensures entries[i].tag != entries[j].tag {
        assert entries[i].tag == keys[i] && entries[j].tag == keys[j];
      }
    }
    SortByCountNoTagTwice(entries);
    NoTagTwiceIsDistinct(sorted);
    forall i, j | 0 <= i < j < |top| ensures top[i].tag != top[j].tag {
      assert top[i] == sorted[i] && top[j] == sorted[j];
    }
  }

  /** The cut keeps the most frequent tags: a tag left without a chip occurs no more often
      than any tag that has one. */
  lemma {:induction false} TopTagsAreTop(posts: seq<Post>, t: string)
    requires t in AllTags(posts)
    requires forall i :: 0 <= i < |TopTags(posts)| ==> TopTags(posts)[i].tag != t
    ensures forall i :: 0 <= i < |TopTags(posts)| ==> Count(AllTags(posts), t) <= TopTags(posts)[i].count
  {
    var entries := TagEntries(posts);
    var sorted := SortByCount(entries);
    var e := TagCount(t, Count(AllTags(posts), t));
    SortByCountSorts(entries);
    EntryOf(posts, t);
    assert e in multiset(sorted);
    var top := TopTags(posts);
    assert top == sorted[..|top|];
    forall i | 0 <= i < |top| ensures sorted[i].tag != t {
      assert top[i] == sorted[i];
    }
    CutKeepsTop(sorted, |top|, e);
    forall i | 0 <= i < |top| ensures e.count <= top[i].count {
      assert top[i] == sorted[i];
    }
  }

  /** In a sorted sequence, an entry past the first `n` counts no more than any of them. */
  lemma {:induction false} CutKeepsTop(sorted: seq<TagCount>, n: nat, e: TagCount)
    requires Descending(sorted) && n <= |sorted| && e in sorted
    requires forall i :: 0 <= i < n ==> sorted[i].tag != e.tag
    ensures forall i :: 0 <= i < n ==> e.count <= sorted[i].count
  {
    var m :| 0 <= m < |sorted| && sorted[m] == e;
    assert n <= m;
    forall i | 0 <= i < n ensures e.count <= sorted[i].count {
      DescendingFrom(sorted, i, m);
    }
  }

  /** Every tag of a post has its entry. */
  lemma {:induction false} EntryOf(posts: seq<Post>, t: string)
    requires t in AllTags(posts)
    ensures TagCount(t, Count(AllTags(posts), t)) in TagEntries(posts)
  {
    var all := AllTags(posts);
    DistinctMembers(all);
    var keys := Distinct(all);
    var k :| 0 <= k < |keys| && keys[k] == t;
    assert TagEntries(posts)[k] == TagCount(t, Count(all, t));
  }

  // ---------------------------------------------------------------------------------------
  // filteredAllPosts, visiblePosts, hasMore

  /** `posts.filter(p => p.tags.includes(tag))`. */
  function WithTag(posts: seq<Post>, tag: string): seq<Post> {
    if posts == [] then []
    else
      var init := WithTag(posts[..|posts| - 1], tag);
      var last := posts[|posts| - 1];
      if tag in last.tags then init + [last] else init
  }

  /** The chip value that lifts the filter. */
  const AllTag: string := "ALL"

  /** `filteredAllPosts` for the active tag. */
  function FilteredPosts(posts: seq<Post>, activeTag: string): seq<Post> {
    if activeTag == AllTag then posts else WithTag(posts, activeTag)
  }

  /** The filter keeps a post exactly when it carries the tag ... */
  lemma {:induction false} WithTagMembers(posts: seq<Post>, tag: string, p: Post)
    ensures p in WithTag(posts, tag) <==> p in posts && tag in p.tags
  {
    if posts != [] {
      var init := posts[..|posts| - 1];
      WithTagMembers(init, tag, p);
      assert posts == init + [posts[|posts| - 1]];
    }
  }

  /** ... and keeps the original order: filtering a concatenation filters each part. */
  lemma {:induction false} WithTagAppend(xs: seq<Post>, ys: seq<Post>, tag: string)
    ensures WithTag(xs + ys, tag) == WithTag(xs, tag) + WithTag(ys, tag)
    decreases |ys|
  {
    if ys == [] {
      assert xs + ys == xs;
    } else {
      var init := ys[..|ys| - 1];
      assert (xs + ys)[..|xs + ys| - 1] == xs + init;
      WithTagAppend(xs, init, tag);
    }
  }

  /** "ALL" gives back the whole list; another tag the posts carrying it. */
  lemma {:induction false} FilteredPostsSpec(posts: seq<Post>, activeTag: string, p: Post)
    ensures FilteredPosts(posts, AllTag) == posts
    ensures activeTag != AllTag ==> (p in FilteredPosts(posts, activeTag) <==> p in posts && activeTag in p.tags)
  {
    WithTagMembers(posts, activeTag, p);
  }

  /** `listSource.slice(0, visibleCount)`. */
  function VisiblePosts(list: seq<Post>, visibleCount: nat): seq<Post> {
    list[..Min(visibleCount, |list|)]
  }

  /** `visibleCount < listSource.length`. */
  predicate HasMore(list: seq<Post>, visibleCount: nat) {
    visibleCount < |list|
  }

  /** The visible posts are the first `min(visibleCount, length)` of the list; there are
      more exactly when some post is not shown yet. */
  lemma {:induction false} VisibleIsPrefix(list: seq<Post>, visibleCount: nat)
    ensures |VisiblePosts(list, visibleCount)| == Min(visibleCount, |list|)
    ensures VisiblePosts(list, visibleCount) <= list
    ensures HasMore(list, visibleCount) <==> |VisiblePosts(list, visibleCount)| < |list|
  {
  }

  // ---------------------------------------------------------------------------------------
  // the page's state

  const PageSize: nat := 10

  /** `MOCK_ALL_POSTS.slice(0, Math.min(3, length))`. */
  function FeaturedPosts(posts: seq<Post>): seq<Post> {
    posts[..Min(3, |posts|)]
  }

  /** The state of the page. `pendingLoads` are the 450 ms waits of `loadMore` calls still
      running, each with the list length its closure captured; `advances` and `unfades` count
      the pending timeouts of the featured rotation (260 ms, then 20 ms). */
  datatype Page = Page(
    activeTag: string,
    visibleCount: nat,
    loadingMore: bool,
    pendingLoads: seq<nat>,
    featuredIndex: nat,
    fading: bool,
    advances: nat,
    unfades: nat)

  const InitialPage := Page(AllTag, PageSize, false, [], 0, false, 0, 0)

  datatype Event =
    | SelectTag(tag: string)  // `selectTag(tag)`
    | LoadMore                // the sentinel comes into view: `loadMore()`
    | LoadDone                // the 450 ms wait of the oldest running `loadMore` ends
    | RotateTick              // the 4200 ms interval of the featured rotation
    | AdvanceTimer            // the 260 ms fade-out ends
    | UnfadeTimer             // the 20 ms fade-in delay ends

  function Step(s: Page, e: Event, posts: seq<Post>): Page {
    var list := FilteredPosts(posts, s.activeTag);
    var featured := |FeaturedPosts(posts)|;
    match e
    case SelectTag(t) => s.(activeTag := t, visibleCount := PageSize, loadingMore := false)
    case LoadMore =>
      if !HasMore(list, s.visibleCount) || s.loadingMore then s
      else s.(loadingMore := true, pendingLoads := s.pendingLoads + [|list|])
    case LoadDone =>
      if s.pendingLoads == [] then s
      else s.(visibleCount := Min(s.visibleCount + PageSize, s.pendingLoads[0]),
              loadingMore := false, pendingLoads := s.pendingLoads[1..])
    case RotateTick =>
      // no interval is installed for one featured post or none
      if featured <= 1 then s else s.(fading := true, advances := s.advances + 1)
    case AdvanceTimer =>
      // an advance is only ever pending with two featured posts or more
      if s.advances == 0 || featured == 0 then s
      else s.(featuredIndex := (s.featuredIndex + 1) % featured, advances := s.advances - 1, unfades := s.unfades + 1)
    case UnfadeTimer =>
      if s.unfades == 0 then s else s.(fading := false, unfades := s.unfades - 1)
  }

  function Run(s: Page, evs: seq<Event>, posts: seq<Post>): Page
    decreases |evs|
  {
    if evs == [] then s else Run(Step(s, evs[0], posts), evs[1..], posts)
  }

  /** `selectTag(t)`: the tag becomes active, the list goes back to one page, and the
      loading flag comes down; nothing else changes. */
  lemma {:induction false} SelectTagResets(s: Page, t: string, posts: seq<Post>)
    ensures Step(s, SelectTag(t), posts) == s.(activeTag := t, visibleCount := PageSize, loadingMore := false)
  {
  }

  /** `loadMore` does nothing while a load runs or when everything is shown. */
  lemma {:induction false} LoadMoreGuard(s: Page, posts: seq<Post>)
    requires s.loadingMore || !HasMore(FilteredPosts(posts, s.activeTag), s.visibleCount)
    ensures Step(s, LoadMore, posts) == s
  {
  }

  /** No load is in flight with a stale length: every running load captured the current
      list's length, at most one runs, it runs exactly while the flag is up, and it will
      show more than is shown now. */
  ghost predicate Calm(s: Page, posts: seq<Post>) {
    var len := |FilteredPosts(posts, s.activeTag)|;
    && |s.pendingLoads| <= 1
    && (s.loadingMore <==> |s.pendingLoads| == 1)
    && (forall i :: 0 <= i < |s.pendingLoads| ==> s.pendingLoads[i] == len && s.visibleCount < len)
  }

  /** A `loadMore` that goes ahead, once its wait ends, shows one more page or the rest of
      the list: the count strictly grows, never beyond the list, and the flag is down. */
  lemma {:induction false} LoadMoreGrows(s: Page, posts: seq<Post>)
    requires Calm(s, posts) && !s.loadingMore
    requires HasMore(FilteredPosts(posts, s.activeTag), s.visibleCount)
    ensures var len := |FilteredPosts(posts, s.activeTag)|;
      var t := Run(s, [LoadMore, LoadDone], posts);
      && t.visibleCount == Min(s.visibleCount + PageSize, len)
      && s.visibleCount < t.visibleCount <= len
      && !t.loadingMore && Calm(t, posts)
  {
    var t1 := Step(s, LoadMore, posts);
    assert Run(s, [LoadMore, LoadDone], posts) == Run(t1, [LoadDone], posts);
    assert Run(t1, [LoadDone], posts) == Step(t1, LoadDone, posts);
  }

  /** Every event but a tag change during a load keeps the page calm: a stale length can
      only come from a `selectTag` while `loadMore` waits. */
  lemma {:induction false} StepCalm(s: Page, e: Event, posts: seq<Post>)
    requires Calm(s, posts)
    requires e.SelectTag? ==> s.pendingLoads == []
    ensures Calm(Step(s, e, posts), posts)
  {
  }

  /** Every running load captured the current list's length, and the count is within the
      list or at the first page. Unlike `Calm`, a tag change during a load keeps this, as
      long as the new list is as long as the old one: the only tag change the page as
      written makes, `selectTag("ALL")` from the chips (`BlogPage.tsx:232` and `:247`), is
      one from the full list when no tag can ever be active. */
  ghost predicate Fresh(s: Page, posts: seq<Post>) {
    var len := |FilteredPosts(posts, s.activeTag)|;
    && (forall i :: 0 <= i < |s.pendingLoads| ==> s.pendingLoads[i] == len)
    && (s.visibleCount <= len || s.visibleCount == PageSize)
  }

  /** An event that leaves the length of the listed posts at `len`. */
  predicate KeepsList(e: Event, len: nat, posts: seq<Post>) {
    e.SelectTag? ==> |FilteredPosts(posts, e.tag)| == len
  }

  /** Every event that keeps the list's length keeps the page fresh. */
  lemma {:induction false} StepFresh(s: Page, e: Event, posts: seq<Post>)
    requires Fresh(s, posts)
    requires KeepsList(e, |FilteredPosts(posts, s.activeTag)|, posts)
    ensures Fresh(Step(s, e, posts), posts)
    ensures |FilteredPosts(posts, Step(s, e, posts).activeTag)| == |FilteredPosts(posts, s.activeTag)|
  {
  }

  /** After a load of a fresh page ends, the count stays within the list. */
  lemma {:induction false} LoadDoneStaysInList(s: Page, posts: seq<Post>)
    requires Fresh(s, posts) && s.pendingLoads != []
    ensures Step(s, LoadDone, posts).visibleCount <= |FilteredPosts(posts, s.activeTag)|
  {
  }

  /** Over any events that keep the list's length, the count never passes the end of the
      list, except at the first page. */
  lemma {:induction false} RunStaysInList(s: Page, evs: seq<Event>, posts: seq<Post>)
    requires Fresh(s, posts)
    requires forall i :: 0 <= i < |evs| ==> KeepsList(evs[i], |FilteredPosts(posts, s.activeTag)|, posts)
    ensures Fresh(Run(s, evs, posts), posts)
    ensures var len := |FilteredPosts(posts, s.activeTag)|;
      Run(s, evs, posts).visibleCount <= len || Run(s, evs, posts).visibleCount == PageSize
    decreases |evs|
  {
    if evs != [] {
      StepFresh(s, evs[0], posts);
      var t := Step(s, evs[0], posts);
      forall i | 0 <= i < |evs[1..]|
        ensures KeepsList(evs[1..][i], |FilteredPosts(posts, t.activeTag)|, posts)
      {
        assert evs[1..][i] == evs[i + 1];
      }
      RunStaysInList(t, evs[1..], posts);
    }
  }

  /** The page as written: from its initial state, with `selectTag("ALL")` the only tag
      change, the count never passes the list except at the first page. */
  lemma {:induction false} PageAsWrittenStaysInList(evs: seq<Event>, posts: seq<Post>)
    requires forall i :: 0 <= i < |evs| ==> (evs[i].SelectTag? ==> evs[i].tag == AllTag)
    ensures var c := Run(InitialPage, evs, posts).visibleCount;
      c <= |posts| || c == PageSize
  {
    forall i | 0 <= i < |evs| ensures KeepsList(evs[i], |FilteredPosts(posts, InitialPage.activeTag)|, posts) {
    }
    RunStaysInList(InitialPage, evs, posts);
  }

  /** A `selectTag` while a load waits lets that load apply the old list's length to the new
      list: the count can then pass the new list's end (which the slice tolerates). */
  lemma {:induction false} StaleLoadOverruns(a: Post, b: Post)
    requires "x" in a.tags && "x" !in b.tags && "y" !in a.tags && "y" in b.tags
    ensures var posts := seq(30, i requires 0 <= i < 30 => a) + [b];
      var s := Page("x", PageSize, false, [], 0, false, 0, 0);
      var t := Run(s, [LoadMore, SelectTag("y"), LoadDone], posts);
      t.activeTag == "y" && t.visibleCount == 20 && |FilteredPosts(posts, "y")| == 1
  {
    var posts := seq(30, i requires 0 <= i < 30 => a) + [b];
    var xs := seq(30, i requires 0 <= i < 30 => a);
    WithTagAppend(xs, [b], "x");
    WithTagAppend(xs, [b], "y");
    AllCarry(xs, a, "x");
    NoneCarry(xs, a, "y");
    assert WithTag([b], "x") == [] && WithTag([b], "y") == [b];
    var s := Page("x", PageSize, false, [], 0, false, 0, 0);
    var s1 := Step(s, LoadMore, posts);
    assert s1.pendingLoads == [30];
    var s2 := Step(s1, SelectTag("y"), posts);
    assert Run(s, [LoadMore, SelectTag("y"), LoadDone], posts) == Run(s1, [SelectTag("y"), LoadDone], posts);
    assert Run(s1, [SelectTag("y"), LoadDone], posts) == Run(s2, [LoadDone], posts);
  }

  lemma {:induction false} AllCarry(xs: seq<Post>, a: Post, tag: string)
    requires forall i :: 0 <= i < |xs| ==> xs[i] == a
    requires tag in a.tags
    ensures WithTag(xs, tag) == xs
  {
    if xs != [] {
      AllCarry(xs[..|xs| - 1], a, tag);
    }
  }

  lemma {:induction false} NoneCarry(xs: seq<Post>, a: Post, tag: string)
    requires forall i :: 0 <= i < |xs| ==> xs[i] == a
    requires tag !in a.tags
    ensures WithTag(xs, tag) == []
  {
    if xs != [] {
      NoneCarry(xs[..|xs| - 1], a, tag);
    }
  }

  /** The featured index stays within the featured posts (at 0 when there is one or none). */
  ghost predicate FeaturedInRange(s: Page, posts: seq<Post>) {
    var featured := |FeaturedPosts(posts)|;
    && (featured <= 1 ==> s.featuredIndex == 0 && s.advances == 0)
    && (featured > 1 ==> s.featuredIndex < featured)
  }

  /** `(prev + 1) % featuredPosts.length` keeps the index in range, and no rotation runs
      with one featured post or none. */
  lemma {:induction false} RunFeaturedInRange(s: Page, evs: seq<Event>, posts: seq<Post>)
    requires FeaturedInRange(s, posts)
    ensures FeaturedInRange(Run(s, evs, posts), posts)
    decreases |evs|
  {
    if evs != [] {
      RunFeaturedInRange(Step(s, evs[0], posts), evs[1..], posts);
    }
  }

  lemma {:induction false} FeaturedIsPrefix(posts: seq<Post>)
    ensures |FeaturedPosts(posts)| == Min(3, |posts|)
    ensures FeaturedPosts(posts) <= posts
  {
  }

  // ---------------------------------------------------------------------------------------
  // the tag chips

  /** The tag the chip of tag `t` selects, as written: every chip calls `selectTag("ALL")`. */
  function ChipTargetAsWritten(t: string): string {
    AllTag
  }

  /** The tag the chip of tag `t` evidently should select: `t` itself. */
  function ChipTarget(t: string): string {
    t
  }

  /** As written, a tag chip never filters the list and is never the highlighted one: after
      a click the list is the whole list and `activeTag === t` fails for every real tag. */
  lemma {:induction false} ChipsAsWrittenNeverFilter(s: Page, t: string, posts: seq<Post>)
    requires t != AllTag
    ensures var u := Step(s, SelectTag(ChipTargetAsWritten(t)), posts);
      FilteredPosts(posts, u.activeTag) == posts && u.activeTag != t
  {
  }

  /** With the chip selecting its own tag, a click highlights that chip and lists exactly
      the posts carrying the tag, from the first page. */
  lemma {:induction false} ChipSelectsItsTag(s: Page, t: string, posts: seq<Post>, p: Post)
    requires t != AllTag
    ensures var u := Step(s, SelectTag(ChipTarget(t)), posts);
      && u.activeTag == t && u.visibleCount == PageSize && !u.loadingMore
      && (p in FilteredPosts(posts, u.activeTag) <==> p in posts && t in p.tags)
  {
    WithTagMembers(posts, t, p);
  }

  /** The page component: its React state as fields, its handlers and timers as methods.
      As written, every tag chip calls `SelectTag(ChipTargetAsWritten(t))`, which is "ALL"
      (`ChipsAsWrittenNeverFilter`); the corrected chip calls `SelectTag(ChipTarget(t))`
      (`ChipSelectsItsTag`). */
  class BlogPage {
    const posts: seq<Post>
    var activeTag: string
    var visibleCount: nat
    var loadingMore: bool
    var pendingLoads: seq<nat>
    var featuredIndex: nat
    var featuredFading: bool
    var advances: nat
    var unfades: nat

    ghost function Snapshot(): Page
      reads this
    {
      Page(activeTag, visibleCount, loadingMore, pendingLoads, featuredIndex, featuredFading, advances, unfades)
    }

    constructor (allPosts: seq<Post>)
      ensures posts == allPosts && Snapshot() == InitialPage
    {
      posts := allPosts;
      activeTag, visibleCount, loadingMore, pendingLoads := AllTag, PageSize, false, [];
      featuredIndex, featuredFading, advances, unfades := 0, false, 0, 0;
    }

    /** The list the page shows, and whether there is more of it. */
    function ListSource(): seq<Post>
      reads this
    {
      FilteredPosts(posts, activeTag)
    }

    method SelectTag(tag: string)
      modifies this
      ensures Snapshot() == Step(old(Snapshot()), Event.SelectTag(tag), posts)
    {
      activeTag := tag;
      visibleCount := PageSize;
      loadingMore := false;
    }

    /** The start of `loadMore`: the guard, the flag, and the wait with the length captured. */
    method LoadMore()
      modifies this
      ensures Snapshot() == Step(old(Snapshot()), Event.LoadMore, posts)
    {
      var list := ListSource();
      if !(visibleCount < |list|) || loadingMore {
        return;
      }
      loadingMore := true;
      pendingLoads := pendingLoads + [|list|];
    }

    /** The end of the oldest running `loadMore`. */
    method OnLoadDone()
      modifies this
      ensures Snapshot() == Step(old(Snapshot()), LoadDone, posts)
    {
      if pendingLoads == [] {
        return;
      }
      var length := pendingLoads[0];
      pendingLoads := pendingLoads[1..];
      visibleCount := Min(visibleCount + PageSize, length);
      loadingMore := false;
    }

    method OnRotateTick()
      modifies this
      ensures Snapshot() == Step(old(Snapshot()), RotateTick, posts)
    {
      if |FeaturedPosts(posts)| <= 1 {
        return;
      }
      featuredFading := true;
      advances := advances + 1;
    }

    method OnAdvanceTimer()
      modifies this
      ensures Snapshot() == Step(old(Snapshot()), AdvanceTimer, posts)
    {
      var featured := |FeaturedPosts(posts)|;
      if advances == 0 || featured == 0 {
        return;
      }
      advances := advances - 1;
      featuredIndex := (featuredIndex + 1) % featured;
      unfades := unfades + 1;
    }

    method OnUnfadeTimer()
      modifies this
      ensures Snapshot() == Step(old(Snapshot()), UnfadeTimer, posts)
    {
      if unfades > 0 {
        featuredFading := false;
        unfades := unfades - 1;
      }
    }
  }
}
