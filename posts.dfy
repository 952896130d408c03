/** `MOCK_ALL_POSTS`: two hand-written posts and fifty generated ones, each generated post
    computed from its number `n = 3..52` by index arithmetic. */
module Posts {
  import opened Wrappers
  import opened Strings

  /** A post record; the optional fields are `None` where the record leaves them out. */
  datatype Post = Post(
    id: string,
    slug: string,
    title: string,
    excerpt: string,
    date: string,
    tags: seq<string>,
    cover: Option<string>,
    likes: Option<int>,
    comments: Option<int>,
    category: Option<string>,
    content: Option<string>)

  const TagPool: seq<string> :=
    ["frontend", "React", "web", "프로토타입", "Backend", "opensource", "career", "ux", "performance", "TypeScript"]

  const GeneratedExcerpt: string :=
    "이 글은 리스트 UI/무한스크롤/카드 레이아웃 확인을 위한 더미 글입니다. 나중에 API 연동으로 바꾸면 됩니다."
  const GeneratedCover: string :=
    "https://images.unsplash.com/photo-1522252234503-e356532cafd5?auto=format&fit=crop&w=1800&q=80"

  /** The two tags of post `n`: `tagPool[n % 10]` and `tagPool[(n + 3) % 10]`. */
  function GeneratedTags(n: nat): (tags: seq<string>)
    ensures |tags| == 2
  {
    [TagPool[n % |TagPool|], TagPool[(n + 3) % |TagPool|]]
  }

  /** The id and the slug of post `n`: `p${n}` and `post-${n}`. */
  function GeneratedId(n: nat): string {
    "p" + NatToString(n)
  }

  function GeneratedSlug(n: nat): string {
    "post-" + NatToString(n)
  }

  /** The record the `Array.from` callback returns for `n`. */
  function GeneratedPost(n: nat): Post {
    var tags := GeneratedTags(n);
    Post(
      GeneratedId(n),
      GeneratedSlug(n),
      "블로그 포스트 #" + NatToString(n),
      GeneratedExcerpt,
      "2025년 12월 1일",
      tags,
      if n % 3 == 0 then Some(GeneratedCover) else None,
      Some((n * 7) % 120),
      Some((n * 3) % 12),
      Some(if "frontend" in tags then "frontend" else "etc"),
      None)
  }

  /** The first hand-written post; `webMd` is the markdown file's text, when it was found. */
  function WebBasic(webMd: Option<string>): Post {
    Post("p1", "web-basic", "웹(Web)이란 도대체 뭘까", "웹의 기본 개념과 동작 원리를 알아봅니다...",
      "2025년 12월 7일", ["Web", "기초", "Frontend"],
      Some("https://images.unsplash.com/photo-1526378722484-bd91ca387e72?auto=format&fit=crop&w=1800&q=80"),
      Some(83), Some(4), Some("frontend"), webMd)
  }

  function JsBasic(jsMd: Option<string>): Post {
    Post("p2", "js-basic", "JS 기본 동작원리, \"진짜 뼈대\"만 잡아보기",
      "자바스크립트의 핵심 동작 원리를 쉽게 이해해봅시다...",
      "2025년 12월 5일", ["JavaScript", "기초", "동작원리"],
      Some("https://images.unsplash.com/photo-1555066931-4365d14bab8c?auto=format&fit=crop&w=1800&q=80"),
      Some(51), Some(2), Some("frontend"), jsMd)
  }

  /** `MOCK_ALL_POSTS`. */
  function MockAllPosts(webMd: Option<string>, jsMd: Option<string>): seq<Post> {
    [WebBasic(webMd), JsBasic(jsMd)] + seq(50, i requires 0 <= i < 50 => GeneratedPost(i + 3))
  }

  /** 52 posts: the two written by hand, then post `n` at position `n - 1` for `n = 3..52`. */
  lemma {:induction false} MockShape(webMd: Option<string>, jsMd: Option<string>)
    ensures var posts := MockAllPosts(webMd, jsMd);
      && |posts| == 52
      && posts[0] == WebBasic(webMd) && posts[1] == JsBasic(jsMd)
      && forall i :: 2 <= i < 52 ==> posts[i] == GeneratedPost(i + 1)
  {
  }

  /** The pool's entries are pairwise distinct: their first characters already are. */
  lemma {:induction false} TagPoolDistinct()
    ensures forall i, j :: 0 <= i < j < |TagPool| ==> TagPool[i] != TagPool[j]
  {
    var firsts := seq(|TagPool|, k requires 0 <= k < |TagPool| => TagPool[k][0]);
    assert firsts == "fRw프BocupT";
    forall i, j | 0 <= i < j < |TagPool| ensures TagPool[i] != TagPool[j] {
      assert firsts[i] != firsts[j];
    }
  }

  /** A generated post's two tags are two different entries of the pool. */
  lemma {:induction false} GeneratedTagsDistinct(n: nat)
    ensures GeneratedTags(n)[0] in TagPool && GeneratedTags(n)[1] in TagPool
    ensures GeneratedTags(n)[0] != GeneratedTags(n)[1]
  {
    TagPoolDistinct();
    var a, b := n % 10, (n + 3) % 10;
    assert b == (a + 3) % 10;
    if a < b {
      assert TagPool[a] != TagPool[b];
    } else {
      assert TagPool[b] != TagPool[a];
    }
  }

  /** The derived numbers and fields of post `n`: likes in `[0, 120)`, comments in `[0, 12)`,
      a cover exactly for multiples of 3, the category "frontend" when a tag is "frontend"
      (which is when `n` ends in 0 or 7) and "etc" otherwise, and no content. */
  lemma {:induction false} GeneratedFields(n: nat)
    ensures var p := GeneratedPost(n);
      && p.likes.Some? && 0 <= p.likes.value < 120
      && p.comments.Some? && 0 <= p.comments.value < 12
      && (p.cover.Some? <==> n % 3 == 0)
      && p.category == Some(if "frontend" in p.tags then "frontend" else "etc")
      && p.content.None?
  {
  }

  lemma {:induction false} FrontendTag(n: nat)
    ensures "frontend" in GeneratedTags(n) <==> n % 10 == 0 || n % 10 == 7
  {
    var a, b := n % 10, (n + 3) % 10;
    assert b == (a + 3) % 10;
    assert GeneratedTags(n) == [TagPool[a], TagPool[b]];
    PoolFrontend(a);
    PoolFrontend(b);
  }

  /** "frontend" is the pool's first entry and no other. */
  lemma {:induction false} PoolFrontend(x: nat)
    requires x < |TagPool|
    ensures TagPool[x] == "frontend" <==> x == 0
  {
    TagPoolDistinct();
    if x != 0 {
      assert TagPool[0] != TagPool[x];
    }
  }

  /** Only the two hand-written posts carry content. */
  lemma {:induction false} OnlyHandWrittenHaveContent(webMd: Option<string>, jsMd: Option<string>)
    ensures forall i :: 0 <= i < |MockAllPosts(webMd, jsMd)| && MockAllPosts(webMd, jsMd)[i].content.Some? ==> i < 2
  {
    MockShape(webMd, jsMd);
  }

  lemma {:induction false} GeneratedIdsDistinct(m: nat, n: nat)
    requires m != n
    ensures GeneratedId(m) != GeneratedId(n)
    ensures GeneratedSlug(m) != GeneratedSlug(n)
  {
    if NatToString(m) == NatToString(n) {
      NatToStringInjective(m, n);
    }
    assert GeneratedId(m)[1..] == NatToString(m) && GeneratedId(n)[1..] == NatToString(n);
    assert GeneratedSlug(m)[5..] == NatToString(m) && GeneratedSlug(n)[5..] == NatToString(n);
  }

  lemma {:induction false} GeneratedNotHandWritten(n: nat)
    requires n >= 3
    ensures GeneratedId(n) != "p1" && GeneratedId(n) != "p2"
    ensures GeneratedSlug(n) != "web-basic" && GeneratedSlug(n) != "js-basic"
  {
    var d := NatToString(n);
    assert GeneratedSlug(n)[0] == 'p';
    assert GeneratedId(n)[1..] == d;
    if GeneratedId(n) == "p1" || GeneratedId(n) == "p2" {
      DigitsValueOfNatToString(n);
    }
  }

  /** The id and the slug of the post at position `i`. */
  function IdAt(i: nat): string {
    if i == 0 then "p1" else if i == 1 then "p2" else GeneratedId(i + 1)
  }

  function SlugAt(i: nat): string {
    if i == 0 then "web-basic" else if i == 1 then "js-basic" else GeneratedSlug(i + 1)
  }

  lemma {:induction false} IdAndSlugAt(webMd: Option<string>, jsMd: Option<string>, i: nat)
    requires i < 52
    ensures var posts := MockAllPosts(webMd, jsMd);
      |posts| == 52 && posts[i].id == IdAt(i) && posts[i].slug == SlugAt(i)
  {
    MockPostAt(webMd, jsMd, i);
  }

  /** Two different positions have different ids and different slugs. */
  lemma {:induction false} IdAtInjective(i: nat, j: nat)
    requires i < j
    ensures IdAt(i) != IdAt(j) && SlugAt(i) != SlugAt(j)
  {
    if i >= 2 {
      GeneratedIdsDistinct(i + 1, j + 1);
    } else if j >= 2 {
      GeneratedNotHandWritten(j + 1);
    }
  }

  /** All 52 ids are pairwise distinct, and so are all 52 slugs. */
  lemma {:induction false} IdsAndSlugsDistinct(webMd: Option<string>, jsMd: Option<string>)
    ensures var posts := MockAllPosts(webMd, jsMd);
      forall i, j :: 0 <= i < j < |posts| ==> posts[i].id != posts[j].id && posts[i].slug != posts[j].slug
  {
    var posts := MockAllPosts(webMd, jsMd);
    IdAndSlugAt(webMd, jsMd, 0);
    forall i, j | 0 <= i < j < |posts| ensures posts[i].id != posts[j].id && posts[i].slug != posts[j].slug {
      IdAndSlugAt(webMd, jsMd, i);
      IdAndSlugAt(webMd, jsMd, j);
      IdAtInjective(i, j);
    }
  }

  /** The post at one position of the list. */
  lemma {:induction false} MockPostAt(webMd: Option<string>, jsMd: Option<string>, i: nat)
    requires i < 52
    ensures var posts := MockAllPosts(webMd, jsMd);
      && |posts| == 52
      && posts[i] == if i == 0 then WebBasic(webMd) else if i == 1 then JsBasic(jsMd) else GeneratedPost(i + 1)
  {
  }
}
