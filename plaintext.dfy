/** `getPlainText` of the blog detail page: the text a React node tree shows, read off its
    leaves. */
module PlainText {
  import opened Strings

  /** The kinds of React node `getPlainText` tells apart. */
  datatype Node =
    | Nil                        // `null` or `undefined`
    | Text(s: string)            // a string
    | Number(v: int)             // a number (integers only)
    | List(items: seq<Node>)     // an array of nodes
    | Element(children: Node)    // an object with `props`, through `props.children`
    | Opaque                     // anything else: a boolean, an object without `props`

  /** The concatenation of a sequence of sequences, in order. */
  function Flatten<T>(xss: seq<seq<T>>): seq<T> {
    if xss == [] then [] else Flatten(xss[..|xss| - 1]) + xss[|xss| - 1]
  }

  /** `getPlainText(node)`. */
  function GetPlainText(node: Node): string
    decreases node
  {
    match node
    case Nil => ""
    case Text(s) => s
    case Number(v) => IntToString(v)
    case List(items) => Flatten(seq(|items|, i requires 0 <= i < |items| => GetPlainText(items[i])))
    case Element(c) => GetPlainText(c)
    case Opaque => ""
  }

  /** The texts of the string and number leaves of a tree, in document order. */
  function Leaves(node: Node): seq<string>
    decreases node
  {
    match node
    case Nil => []
    case Text(s) => [s]
    case Number(v) => [IntToString(v)]
    case List(items) => Flatten(seq(|items|, i requires 0 <= i < |items| => Leaves(items[i])))
    case Element(c) => Leaves(c)
    case Opaque => []
  }

  lemma {:induction false} FlattenAppend<T>(xss: seq<seq<T>>, yss: seq<seq<T>>)
    ensures Flatten(xss + yss) == Flatten(xss) + Flatten(yss)
    decreases |yss|
  {
    if yss == [] {
      assert xss + yss == xss;
    } else {
      var init, last := yss[..|yss| - 1], yss[|yss| - 1];
      var zs := xss + yss;
      assert zs[..|zs| - 1] == xss + init && zs[|zs| - 1] == last;
      FlattenAppend(xss, init);
      assert Flatten(zs) == Flatten(xss + init) + last;
      assert Flatten(yss) == Flatten(init) + last;
    }
  }

  /** Flattening twice is flattening each part and then the results. */
  lemma {:induction false} FlattenFlatten<T>(xsss: seq<seq<seq<T>>>)
    ensures Flatten(Flatten(xsss)) == Flatten(seq(|xsss|, i requires 0 <= i < |xsss| => Flatten(xsss[i])))
  {
    var inner := seq(|xsss|, i requires 0 <= i < |xsss| => Flatten(xsss[i]));
    if xsss != [] {
      var init := xsss[..|xsss| - 1];
      FlattenFlatten(init);
      FlattenAppend(Flatten(init), xsss[|xsss| - 1]);
      assert inner[..|inner| - 1] == seq(|init|, i requires 0 <= i < |init| => Flatten(init[i]));
    }
  }

  /** The page text of a tree is its leaves' texts, joined with nothing between them. */
  lemma {:induction false} PlainTextIsLeaves(node: Node)
    ensures GetPlainText(node) == Flatten(Leaves(node))
    decreases node
  {
    match node
    case Nil =>
    case Text(s) =>
      assert Flatten([s]) == Flatten([]) + s;
    case Number(v) =>
      assert Flatten([IntToString(v)]) == Flatten([]) + IntToString(v);
    case List(items) =>
      var parts := seq(|items|, i requires 0 <= i < |items| => Leaves(items[i]));
      forall i | 0 <= i < |items| ensures GetPlainText(items[i]) == Flatten(parts[i]) {
        PlainTextIsLeaves(items[i]);
      }
      FlattenFlatten(parts);
      assert seq(|items|, i requires 0 <= i < |items| => GetPlainText(items[i]))
          == seq(|parts|, i requires 0 <= i < |parts| => Flatten(parts[i]));
    case Element(c) =>
      PlainTextIsLeaves(c);
    case Opaque =>
  }

  /** An array's text is its two halves' texts, one after the other. */
  lemma {:induction false} ListAppend(xs: seq<Node>, ys: seq<Node>)
    ensures GetPlainText(List(xs + ys)) == GetPlainText(List(xs)) + GetPlainText(List(ys))
  {
    var zs := xs + ys;
    var a := seq(|xs|, i requires 0 <= i < |xs| => GetPlainText(xs[i]));
    var b := seq(|ys|, i requires 0 <= i < |ys| => GetPlainText(ys[i]));
    assert seq(|zs|, i requires 0 <= i < |zs| => GetPlainText(zs[i])) == a + b;
    FlattenAppend(a, b);
  }

  /** A one-element array shows what its element shows; an empty one shows nothing. */
  lemma {:induction false} ListOfOne(x: Node)
    ensures GetPlainText(List([x])) == GetPlainText(x)
    ensures GetPlainText(List([])) == ""
  {
    var a := seq(1, i requires 0 <= i < 1 => GetPlainText([x][i]));
    assert a == [GetPlainText(x)];
    assert Flatten(a) == Flatten([]) + GetPlainText(x);
  }

  /** Wrapping an array in another, or in elements, changes nothing. */
  lemma {:induction false} NestingIsTransparent(xs: seq<Node>)
    ensures GetPlainText(List([List(xs)])) == GetPlainText(List(xs))
    ensures GetPlainText(Element(Element(List(xs)))) == GetPlainText(List(xs))
  {
    ListOfOne(List(xs));
  }
}
