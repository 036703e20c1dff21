/** Articles as list items, the title rule and the enumeration of the
    embedded `articles` directory done once per session. */
module Articles {
  import opened Outcomes

  /** The list item type `article`. */
  datatype Article = Article(title: string, path: string, body: string, description: string)

  /** The empty `article` value a session starts with. */
  const EmptyArticle := Article("", "", "", "")

  /** Length of the "articles/" prefix and of the ".md" suffix the title rule cuts off. */
  const PrefixLength := 9
  const SuffixLength := 3

  /** The title rule `path[9:len(path)-3]`; Go panics on shorter paths. */
  function Title(path: string): (t: string)
    requires |path| >= PrefixLength + SuffixLength
    ensures |t| == |path| - PrefixLength - SuffixLength
    ensures path == path[..PrefixLength] + t + path[|path| - SuffixLength..]
  {
    path[PrefixLength..|path| - SuffixLength]
  }

  /** The rule recovers the name of a file stored as "articles/<t>.md". */
  lemma TitleOfArticleFile(t: string)
    ensures Title("articles/" + t + ".md") == t
  {
  }

  /** Two paths with the same prefix and suffix have the same title only if they are equal. */
  lemma TitleInjectiveOnFrame(p: string, q: string)
    requires |p| >= PrefixLength + SuffixLength && |q| >= PrefixLength + SuffixLength
    requires p[..PrefixLength] == q[..PrefixLength]
    requires p[|p| - SuffixLength..] == q[|q| - SuffixLength..]
    ensures Title(p) == Title(q) <==> p == q
  {
  }

  /** ".md" starts at index i of s. */
  predicate MdAt(s: string, i: int)
    requires 0 <= i && i + 3 <= |s|
  {
    s[i] == '.' && s[i + 1] == 'm' && s[i + 2] == 'd'
  }

  /** strings.Contains(path, ".md"). */
  predicate ContainsMd(s: string) {
    exists i :: 0 <= i && i + 3 <= |s| && MdAt(s, i)
  }

  /** One call of the WalkDir callback: a visited path, or an error. */
  datatype WalkEntry = Visited(path: string) | WalkError

  /** The list item made for a walked file: derived title, empty body. */
  function Listing(path: string): Article
    requires |path| >= PrefixLength + SuffixLength
  {
    Article(Title(path), path, "", "")
  }

  /** What the callback does with one entry given the items found so far:
      it stops the process on an inadmissible entry, otherwise keeps the
      items found so far and appends at most one, exactly for a ".md" path. */
  function Visit(found: seq<Article>, e: WalkEntry): (r: Outcome<seq<Article>>)
    ensures r.Done? <==> Admissible(e)
    ensures e.WalkError? ==> r == Abort(WalkFailed)
    ensures r.Done? ==> |found| <= |r.value| <= |found| + 1 && r.value[..|found|] == found
    ensures r.Done? ==> (|r.value| == |found| + 1 <==> ContainsMd(e.path))
    ensures r.Done? && |r.value| == |found| + 1 ==>
      var a := r.value[|found|];
      a.path == e.path && a.title == Title(e.path) && a.body == "" && a.description == ""
  {
    match e
    case WalkError => Abort(WalkFailed)
    case Visited(p) =>
      if !ContainsMd(p) then Done(found)
      else if |p| < PrefixLength + SuffixLength then Abort(WalkTitlePanic(p))
      else Done(found + [Listing(p)])
  }

  /** The outcome of the whole walk, entries processed in walk order. */
  function Enumerate(walk: seq<WalkEntry>): Outcome<seq<Article>> {
    if walk == [] then Done([])
    else match Enumerate(walk[..|walk| - 1])
      case Abort(f) => Abort(f)
      case Done(found) => Visit(found, walk[|walk| - 1])
  }

  /** The paths of the walk that contain ".md", in walk order: the reference filter. */
  function KeptPaths(walk: seq<WalkEntry>): seq<string> {
    if walk == [] then []
    else
      var e := walk[0];
      (if e.Visited? && ContainsMd(e.path) then [e.path] else []) + KeptPaths(walk[1..])
  }

  /** An entry the callback accepts without stopping the process. */
  predicate Admissible(e: WalkEntry) {
    e.Visited? && (ContainsMd(e.path) ==> |e.path| >= PrefixLength + SuffixLength)
  }

  function Paths(arts: seq<Article>): (ps: seq<string>)
    ensures |ps| == |arts|
    ensures forall k :: 0 <= k < |arts| ==> ps[k] == arts[k].path
  {
    if arts == [] then [] else [arts[0].path] + Paths(arts[1..])
  }

  lemma PathsAppend(a: seq<Article>, b: seq<Article>)
    ensures Paths(a + b) == Paths(a) + Paths(b)
  {
  }

  lemma {:induction false} KeptPathsAppend(a: seq<WalkEntry>, b: seq<WalkEntry>)
    ensures KeptPaths(a + b) == KeptPaths(a) + KeptPaths(b)
  {
    if a == [] {
      assert a + b == b;
    } else {
      assert (a + b)[1..] == a[1..] + b;
      KeptPathsAppend(a[1..], b);
    }
  }

  /** A failure on a prefix of the walk is the failure of the whole walk. */
  lemma {:induction false} AbortPersists(walk: seq<WalkEntry>, i: nat)
    requires i <= |walk|
    requires Enumerate(walk[..i]).Abort?
    ensures Enumerate(walk) == Enumerate(walk[..i])
  {
    if i < |walk| {
      var w := walk[..|walk| - 1];
      assert w[..i] == walk[..i];
      AbortPersists(w, i);
      assert walk[..|walk|] == walk;
    } else {
      assert walk[..i] == walk;
    }
  }

  /** The walk completes exactly when every entry is admissible. */
  lemma {:induction false} EnumerateSucceedsIff(walk: seq<WalkEntry>)
    ensures Enumerate(walk).Done? <==> forall k :: 0 <= k < |walk| ==> Admissible(walk[k])
  {
    if walk != [] {
      var w := walk[..|walk| - 1];
      EnumerateSucceedsIff(w);
      assert forall k :: 0 <= k < |w| ==> w[k] == walk[k];
    }
  }

  /** A completed walk lists exactly the ".md" paths, in walk order, each with
      its derived title and an empty body. */
  lemma {:induction false} EnumerateLists(walk: seq<WalkEntry>)
    requires Enumerate(walk).Done?
    ensures Paths(Enumerate(walk).value) == KeptPaths(walk)
    ensures forall a :: a in Enumerate(walk).value ==>
      |a.path| >= PrefixLength + SuffixLength && a.title == Title(a.path) && a.body == "" && a.description == ""
  {
    if walk != [] {
      var w := walk[..|walk| - 1];
      var e := walk[|walk| - 1];
      EnumerateLists(w);
      assert walk == w + [e];
      KeptPathsAppend(w, [e]);
      var found := Enumerate(w).value;
      if e.Visited? && ContainsMd(e.path) {
        PathsAppend(found, [Listing(e.path)]);
      }
    }
  }

  /** The reference filter keeps a path exactly when it was walked and contains ".md". */
  lemma {:induction false} KeptPathsMembers(walk: seq<WalkEntry>, p: string)
    ensures p in KeptPaths(walk) <==> Visited(p) in walk && ContainsMd(p)
  {
    if walk != [] {
      KeptPathsMembers(walk[1..], p);
      assert walk == [walk[0]] + walk[1..];
    }
  }

  /** The callback loop of customMiddleware: appends a list item for every
      walked path containing ".md". */
  method FindArticles(walk: seq<WalkEntry>) returns (r: Outcome<seq<Article>>)
    ensures r == Enumerate(walk)
  {
    var found: seq<Article> := [];
    var i := 0;
    while i < |walk|
      invariant 0 <= i <= |walk|
      invariant Enumerate(walk[..i]) == Done(found)
    {
      var e := walk[i];
      assert walk[..i + 1][..i] == walk[..i];
      if e.WalkError? {
        AbortPersists(walk, i + 1);
        return Abort(WalkFailed);
      }
      if ContainsMd(e.path) {
        if |e.path| < PrefixLength + SuffixLength {
          AbortPersists(walk, i + 1);
          return Abort(WalkTitlePanic(e.path));
        }
        found := found + [Listing(e.path)];
      }
      i := i + 1;
    }
    assert walk[..i] == walk;
    r := Done(found);
  }
}
