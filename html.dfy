/** The parsed page as the scraper sees it, and the three library services it relies on: fetching
    and parsing a URL, matching a CSS selector against an element, and resolving a reference
    against a base URL. The services are kept as uninterpreted functions. */
module Html {
  import opened Wrappers
  import opened Text

  /** A tag of the parse tree: its name, its attributes (a multi-valued attribute such as `class`
      as its space-joined text), `get_text(strip=True)` of the tag, and all of its descendant tags
      in document order. */
  datatype Element = Element(tag: string, attrs: map<string, string>, text: string, inner: seq<Element>)

  /** A parsed page: every tag in document order, and the text nodes `get_text` visits, in order. */
  datatype Document = Document(elements: seq<Element>, strings: seq<string>) {
    /** `get_text()`: the text nodes joined with no separator. */
    function Text(): string {
      Concat(strings)
    }

    /** `get_text(strip=True)`: each text node stripped, the empty ones dropped, and the rest joined
        with no separator. */
    function StrippedText(): string {
      JoinStripped(strings)
    }
  }

  /** What fetching and parsing a URL gives: a page, a `RequestException` (connection failure,
      timeout or an HTTP error status), or any other exception raised on the way. */
  datatype Response = Page(doc: Document) | RequestFailed(reason: string) | Crashed(message: string)

  datatype Web = Web(
    fetch: string -> Response,
    matches: (Element, string) -> bool,  // the CSS selector engine's test of one element
    urljoin: (string, string) -> string  // `urllib.parse.urljoin(base, ref)`
  )

  function Concat(ss: seq<string>): string {
    if ss == [] then "" else Concat(ss[..|ss| - 1]) + ss[|ss| - 1]
  }

  /** Joining with `""` makes dropping an empty stripped node the same as appending it. */
  function JoinStripped(ss: seq<string>): string {
    if ss == [] then "" else JoinStripped(ss[..|ss| - 1]) + Strip(ss[|ss| - 1])
  }

  predicate AllSpace(s: string) {
    forall k :: 0 <= k < |s| ==> IsSpace(s[k])
  }

  /** Neither starts nor ends with whitespace. */
  predicate Trimmed(s: string) {
    s != "" ==> !IsSpace(s[0]) && !IsSpace(s[|s| - 1])
  }

  /** A text node strips to nothing exactly when it is all whitespace, and never grows. */
  lemma StripEmpty(s: string)
    ensures Strip(s) == "" <==> AllSpace(s)
    ensures |Strip(s)| <= |s|
  {
    var r := Strip(s);
    var i: nat :| InfixAmidSpace(s, i, r);
    if r != "" {
      assert r[0] == s[i..i + |r|][0] == s[i];
    } else {
      assert forall k :: 0 <= k < |s| ==> IsSpace(s[k]);
    }
  }

  lemma AllSpaceConcat(c: string, d: string)
    ensures AllSpace(c + d) <==> AllSpace(c) && AllSpace(d)
  {
    if AllSpace(c + d) {
      assert forall k :: 0 <= k < |c| ==> (c + d)[k] == c[k];
      assert forall k :: 0 <= k < |d| ==> (c + d)[|c| + k] == d[k];
    }
  }

  /** The stripped text never starts or ends with whitespace. */
  lemma {:induction false} JoinStrippedTrimmed(ss: seq<string>)
    ensures Trimmed(JoinStripped(ss))
    decreases |ss|
  {
    if ss != [] {
      var n := |ss| - 1;
      JoinStrippedTrimmed(ss[..n]);
      var a, b := JoinStripped(ss[..n]), Strip(ss[n]);
      assert JoinStripped(ss) == a + b;
      if a + b != "" {
        assert (a + b)[0] == if a != "" then a[0] else b[0];
        assert (a + b)[|a + b| - 1] == if b != "" then b[|b| - 1] else a[|a| - 1];
      }
    }
  }

  /** The stripped text is no longer than the text, and empty exactly when the text is all
      whitespace. */
  lemma {:induction false} JoinStrippedOfConcat(ss: seq<string>)
    ensures |JoinStripped(ss)| <= |Concat(ss)|
    ensures JoinStripped(ss) == "" <==> AllSpace(Concat(ss))
    decreases |ss|
  {
    if ss != [] {
      var n := |ss| - 1;
      JoinStrippedOfConcat(ss[..n]);
      StripEmpty(ss[n]);
      AllSpaceConcat(Concat(ss[..n]), ss[n]);
      assert JoinStripped(ss) == JoinStripped(ss[..n]) + Strip(ss[n]);
      assert Concat(ss) == Concat(ss[..n]) + ss[n];
    }
  }

  /** The elements of `xs` that satisfy `p`, in order. */
  function Filter<T>(xs: seq<T>, p: T -> bool): (r: seq<T>)
    ensures |r| <= |xs|
    ensures forall k :: 0 <= k < |r| ==> p(r[k])
  {
    if xs == [] then []
    else
      var r := Filter(xs[..|xs| - 1], p);
      if p(xs[|xs| - 1]) then r + [xs[|xs| - 1]] else r
  }

  /** The filter keeps exactly the elements that satisfy the predicate. */
  lemma {:induction false} FilterMembers<T>(xs: seq<T>, p: T -> bool)
    ensures forall k :: 0 <= k < |Filter(xs, p)| ==> Filter(xs, p)[k] in xs
    ensures forall k :: 0 <= k < |xs| && p(xs[k]) ==> xs[k] in Filter(xs, p)
    decreases |xs|
  {
    if xs != [] {
      var n := |xs| - 1;
      FilterMembers(xs[..n], p);
      assert forall k :: 0 <= k < n ==> xs[..n][k] == xs[k];
      assert forall x :: x in xs[..n] ==> x in xs;
    }
  }

  lemma FilterSnoc<T>(xs: seq<T>, x: T, p: T -> bool)
    ensures Filter(xs + [x], p) == if p(x) then Filter(xs, p) + [x] else Filter(xs, p)
  {
    assert (xs + [x])[..|xs|] == xs;
  }

  /** Filtering distributes over concatenation. */
  lemma {:induction false} FilterAppend<T>(xs: seq<T>, ys: seq<T>, p: T -> bool)
    ensures Filter(xs + ys, p) == Filter(xs, p) + Filter(ys, p)
    decreases |ys|
  {
    if ys == [] {
      assert xs + ys == xs;
    } else {
      var n := |ys| - 1;
      var init := ys[..n];
      assert ys == init + [ys[n]];
      assert xs + ys == (xs + init) + [ys[n]];
      FilterAppend(xs, init, p);
      FilterSnoc(xs + init, ys[n], p);
      FilterSnoc(init, ys[n], p);
    }
  }

  lemma FilterCons<T>(x: T, xs: seq<T>, p: T -> bool)
    ensures Filter([x] + xs, p) == if p(x) then [x] + Filter(xs, p) else Filter(xs, p)
  {
    FilterAppend([x], xs, p);
    FilterSnoc([], x, p);
    assert [] + [x] == [x];
  }

  /** The selector engine's test for one selector, as a predicate on elements. */
  function Matching(web: Web, selector: string): Element -> bool {
    (e: Element) => web.matches(e, selector)
  }

  /** `scope.select(selector)`: the matching elements in document order. */
  function SelectAll(web: Web, scope: seq<Element>, selector: string): seq<Element> {
    Filter(scope, Matching(web, selector))
  }

  /** `scope.select_one(selector)`: the first matching element. */
  function SelectOne(web: Web, scope: seq<Element>, selector: string): (r: Option<Element>)
    ensures r.Some? ==> exists k :: 0 <= k < |scope| && scope[k] == r.value && web.matches(scope[k], selector)
                                    && forall j :: 0 <= j < k ==> !web.matches(scope[j], selector)
    ensures r.None? ==> forall k :: 0 <= k < |scope| ==> !web.matches(scope[k], selector)
  {
    if scope == [] then None
    else if web.matches(scope[0], selector) then Some(scope[0])
    else
      var r := SelectOne(web, scope[1..], selector);
      assert forall k :: 1 <= k < |scope| ==> scope[k] == scope[1..][k - 1];
      r
  }

  /** `select_one` gives the first element `select` would list. */
  lemma {:induction false} SelectOneIsFirstOfAll(web: Web, scope: seq<Element>, selector: string)
    ensures SelectOne(web, scope, selector) == if SelectAll(web, scope, selector) == [] then None
                                               else Some(SelectAll(web, scope, selector)[0])
    decreases |scope|
  {
    if scope != [] {
      assert scope == [scope[0]] + scope[1..];
      FilterCons(scope[0], scope[1..], Matching(web, selector));
      SelectOneIsFirstOfAll(web, scope[1..], selector);
    }
  }

  function IsTag(tag: string): Element -> bool {
    (e: Element) => e.tag == tag
  }

  function HasAttr(name: string): Element -> bool {
    (e: Element) => name in e.attrs
  }

  /** `find_all(tag)`: the elements with that tag name, in document order. */
  function FindAllTag(scope: seq<Element>, tag: string): seq<Element> {
    Filter(scope, IsTag(tag))
  }

  /** `get_soup()`: the parsed page, `None` after a `RequestException`, or the other exception. */
  function GetSoup(web: Web, url: string): (r: Result<Option<Document>, Error>)
    ensures r.Success? && r.value.Some? <==> web.fetch(url).Page?
    ensures r.Success? && r.value.None? <==> web.fetch(url).RequestFailed?
    ensures web.fetch(url).Page? ==> r == Success(Some(web.fetch(url).doc))
    ensures web.fetch(url).Crashed? ==> r == Failure(FetchCrash(web.fetch(url).message))
  {
    match web.fetch(url)
    case Page(doc) => Success(Some(doc))
    case RequestFailed(_) => Success(None)
    case Crashed(m) => Failure(FetchCrash(m))
  }
}
