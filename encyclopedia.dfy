/** The encyclopedia screen: bold markers inside a line of text, the layout of
    an article's content as headings, lists and paragraphs, the search over
    titles and summaries, the grouping of the results by category, and the one
    article shown expanded. The regular expressions of the screen are written
    out as matchers with the semantics of JavaScript's engine. */
module Encyclopedia {
  import opened Base
  import opened Types

  // ---------------------------------------------------------------------------
  // Strings: concatenation, `substring` and `split` on a fixed separator
  // ---------------------------------------------------------------------------

  function Concat(parts: seq<string>): string
    decreases |parts|
  {
    if parts == [] then "" else parts[0] + Concat(parts[1..])
  }

  lemma {:induction false} ConcatAppend(a: seq<string>, b: seq<string>)
    ensures Concat(a + b) == Concat(a) + Concat(b)
    decreases |a|
  {
    if a == [] {
      assert a + b == b;
    } else {
      assert (a + b)[0] == a[0];
      assert (a + b)[1..] == a[1..] + b;
      ConcatAppend(a[1..], b);
    }
  }

  /** Dropping empty strings does not change the concatenation. */
  lemma {:induction false} ConcatDropsEmpty(parts: seq<string>)
    ensures Concat(Filter(parts, (x: string) => x != "")) == Concat(parts)
    decreases |parts|
  {
    if parts != [] {
      var init := parts[..|parts| - 1];
      var last := parts[|parts| - 1];
      ConcatDropsEmpty(init);
      assert parts == init + [last];
      ConcatAppend(init, [last]);
      ConcatAppend(Filter(init, (x: string) => x != ""), if last != "" then [last] else []);
    }
  }

  /** `s.substring(start, end)`: both bounds clamped to the string, then
      swapped if the first exceeds the second. */
  function JsSubstring(s: string, start: int, end: int): (r: string)
    ensures 0 <= start <= end <= |s| ==> r == s[start..end]
  {
    var a := if start < 0 then 0 else if start > |s| then |s| else start;
    var b := if end < 0 then 0 else if end > |s| then |s| else end;
    if a <= b then s[a..b] else s[b..a]
  }

  /** `sep` occurs in `s` starting at position `j`. */
  predicate OccursAt(s: string, sep: string, j: nat) {
    j + |sep| <= |s| && s[j..j + |sep|] == sep
  }

  /** `sep` occurs nowhere in `s`. */
  ghost predicate Free(s: string, sep: string) {
    forall j: nat :: !OccursAt(s, sep, j)
  }

  /** An occurrence inside a slice is an occurrence in the whole string that
      ends within the slice. */
  lemma OccursInSlice(s: string, sep: string, a: nat, b: nat, j: nat)
    requires a <= b <= |s|
    ensures OccursAt(s[a..b], sep, j) ==> OccursAt(s, sep, a + j) && a + j + |sep| <= b
  {
    if j + |sep| <= b - a {
      var x, y := s[a..b][j..j + |sep|], s[a + j..a + j + |sep|];
      forall m | 0 <= m < |x| ensures x[m] == y[m] {
      }
      assert x == y;
    }
  }

  /** The loop of `s.split(sep)` for a non-empty separator: the current piece
      starts at `p` and `q` is the next position probed for `sep`; a match
      closes the piece and the search resumes after it, so occurrences are
      found from the left without overlapping. */
  function SplitFrom(s: string, sep: string, p: nat, q: nat): (r: seq<string>)
    requires |sep| > 0 && p <= q <= |s|
    ensures |r| >= 1
    decreases |s| - q
  {
    if q + |sep| > |s| then [s[p..]]
    else if OccursAt(s, sep, q) then [s[p..q]] + SplitFrom(s, sep, q + |sep|, q + |sep|)
    else SplitFrom(s, sep, p, q + 1)
  }

  /** `s.split(sep)` */
  function SplitOn(s: string, sep: string): (r: seq<string>)
    requires |sep| > 0
    ensures |r| >= 1
  {
    SplitFrom(s, sep, 0, 0)
  }

  /** `parts.join(sep)` */
  function Join(parts: seq<string>, sep: string): string
    requires |parts| >= 1
    decreases |parts|
  {
    if |parts| == 1 then parts[0] else parts[0] + sep + Join(parts[1..], sep)
  }

  /** Joining the pieces with the separator gives the text back. */
  lemma {:induction false} SplitJoin(s: string, sep: string, p: nat, q: nat)
    requires |sep| > 0 && p <= q <= |s|
    ensures Join(SplitFrom(s, sep, p, q), sep) == s[p..]
    decreases |s| - q
  {
    if q + |sep| <= |s| {
      if OccursAt(s, sep, q) {
        var rest := q + |sep|;
        SplitJoin(s, sep, rest, rest);
        var r := SplitFrom(s, sep, p, q);
        assert r[0] == s[p..q] && r[1..] == SplitFrom(s, sep, rest, rest);
        assert s[p..] == s[p..q] + s[q..rest] + s[rest..];
      } else {
        SplitJoin(s, sep, p, q + 1);
      }
    }
  }

  /** No piece contains the separator, given that none starts in the part of
      the current piece already probed. */
  lemma {:induction false} SplitPiecesFree(s: string, sep: string, p: nat, q: nat)
    requires |sep| > 0 && p <= q <= |s|
    requires forall j :: p <= j < q ==> !OccursAt(s, sep, j)
    ensures forall k :: 0 <= k < |SplitFrom(s, sep, p, q)| ==> Free(SplitFrom(s, sep, p, q)[k], sep)
    decreases |s| - q
  {
    var r := SplitFrom(s, sep, p, q);
    if q + |sep| > |s| {
      assert s[p..] == s[p..|s|];
      forall j: nat ensures !OccursAt(s[p..], sep, j) {
        OccursInSlice(s, sep, p, |s|, j);
      }
    } else if OccursAt(s, sep, q) {
      var rest := q + |sep|;
      SplitPiecesFree(s, sep, rest, rest);
      forall j: nat ensures !OccursAt(s[p..q], sep, j) {
        OccursInSlice(s, sep, p, q, j);
      }
      forall k | 0 <= k < |r| ensures Free(r[k], sep) {
        if k > 0 {
          assert r[k] == SplitFrom(s, sep, rest, rest)[k - 1];
        }
      }
    } else {
      SplitPiecesFree(s, sep, p, q + 1);
    }
  }

  // ---------------------------------------------------------------------------
  // Bold markers: `text.split(/(\*\*.*?\*\*)/g).filter(Boolean)`
  // ---------------------------------------------------------------------------

  /** The characters `.` does not match. */
  predicate IsLineTerminator(c: char) {
    c == '\n' || c == '\r' || c == '\U{2028}' || c == '\U{2029}'
  }

  /** A `**` marker starts at position `m`. */
  predicate MarkerAt(s: string, m: nat) {
    m + 2 <= |s| && s[m..m + 2] == "**"
  }

  /** The lazy `.*?` may step over position `m`: no line terminator there, and
      no marker starting there to stop it. */
  predicate Passable(s: string, m: nat) {
    m < |s| && !IsLineTerminator(s[m]) && !MarkerAt(s, m)
  }

  /** Where the lazy `.*?` followed by `**` stops when started at `k`: the first
      `**` at or after `k` reached without crossing a line terminator. */
  function CloseFrom(s: string, k: nat): (j: Option<nat>)
    ensures j.Some? ==> k <= j.value && MarkerAt(s, j.value)
    ensures j.Some? ==> forall m :: k <= m < j.value ==> Passable(s, m)
    ensures forall e: nat {:trigger MarkerAt(s, e)} ::
      k <= e && MarkerAt(s, e) && (forall m: nat :: k <= m < e ==> Passable(s, m)) ==> j.Some?
    decreases |s| - k
  {
    if k + 2 > |s| then None
    else if s[k..k + 2] == "**" then Some(k)
    else if IsLineTerminator(s[k]) then assert !Passable(s, k); None
    else CloseFrom(s, k + 1)
  }

  /** The end of the marker match starting exactly at `q`, if there is one. */
  function MatchAt(s: string, q: nat): (e: Option<nat>)
    ensures e.Some? ==> q + 4 <= e.value <= |s|
    ensures e.Some? ==> s[q..q + 2] == "**" && s[e.value - 2..e.value] == "**"
  {
    if MarkerAt(s, q) then
      match CloseFrom(s, q + 2)
      case Some(j) => Some(j + 2)
      case None => None
    else None
  }

  /** The split loop from the unconsumed text at `p`, probing position `q`:
      each match contributes the text before it and the match itself. */
  function SplitParts(s: string, p: nat, q: nat): (r: seq<string>)
    requires p <= q <= |s|
    ensures Concat(r) == s[p..]
    decreases |s| - q
  {
    if q == |s| then [s[p..]]
    else
      match MatchAt(s, q)
      case Some(e) =>
        var rest := SplitParts(s, e, e);
        assert Concat([s[p..q], s[q..e]] + rest) == s[p..q] + (s[q..e] + Concat(rest)) by {
          assert ([s[p..q], s[q..e]] + rest)[1..] == [s[q..e]] + rest;
          assert ([s[q..e]] + rest)[1..] == rest;
        }
        assert s[p..] == s[p..q] + s[q..e] + s[e..];
        [s[p..q], s[q..e]] + rest
      case None => SplitParts(s, p, q + 1)
  }

  /** The pieces of `text`, empty ones dropped. */
  function StyledParts(text: string): (parts: seq<string>)
    ensures Concat(parts) == text
    ensures forall i :: 0 <= i < |parts| ==> parts[i] != ""
  {
    ConcatDropsEmpty(SplitParts(text, 0, 0));
    Filter(SplitParts(text, 0, 0), (x: string) => x != "")
  }

  datatype Segment = Plain(text: string) | Strong(text: string)

  /** One piece as `renderStyledText` shows it. */
  function RenderPart(part: string): (seg: Segment)
    ensures seg.Strong? <==> StartsWith(part, "**") && EndsWith(part, "**")
    ensures seg.Plain? ==> seg.text == part
    ensures seg.Strong? && |part| >= 4 ==> seg.text == part[2..|part| - 2]
  {
    if StartsWith(part, "**") && EndsWith(part, "**") then Strong(JsSubstring(part, 2, |part| - 2))
    else Plain(part)
  }

  /** `renderStyledText` */
  function RenderStyled(text: string): (r: seq<Segment>)
    ensures r == [] <==> text == ""
    ensures |r| == |StyledParts(text)|
    ensures forall i :: 0 <= i < |r| ==>
      var part := StyledParts(text)[i];
      && (r[i].Strong? <==> StartsWith(part, "**") && EndsWith(part, "**"))
      && (r[i].Plain? ==> r[i].text == part)
      && (r[i].Strong? && |part| >= 4 ==> r[i].text == part[2..|part| - 2])
  {
    var parts := StyledParts(text);
    seq(|parts|, i requires 0 <= i < |parts| => RenderPart(parts[i]))
  }

  /** A piece wrapped in markers is shown bold without them; any other piece
      is shown as it is. A lone `**` or `***`, which also starts and ends with
      the marker, is shown bold as `**` and `*` respectively, because
      `substring` swaps reversed bounds. */
  lemma RenderPartCases(part: string)
    ensures |part| >= 4 && StartsWith(part, "**") && EndsWith(part, "**") ==>
      RenderPart(part) == Strong(part[2..|part| - 2])
    ensures !(StartsWith(part, "**") && EndsWith(part, "**")) ==> RenderPart(part) == Plain(part)
    ensures RenderPart("**") == Strong("**") && RenderPart("***") == Strong("*")
  {
  }

  /** With no marker probed successfully, the loop yields the rest as one piece. */
  lemma {:induction false} NoMatchOnePiece(s: string, p: nat, q: nat)
    requires p <= q <= |s|
    requires forall k :: q <= k < |s| ==> MatchAt(s, k).None?
    ensures SplitParts(s, p, q) == [s[p..]]
    decreases |s| - q
  {
    if q < |s| {
      NoMatchOnePiece(s, p, q + 1);
    }
  }

  /** Text without `**` is one plain piece. */
  lemma UnmarkedTextIsPlain(text: string)
    requires text != "" && !Contains(text, "**")
    ensures RenderStyled(text) == [Plain(text)]
  {
    forall k: nat | k < |text| ensures !MarkerAt(text, k) {
      if MarkerAt(text, k) {
        ContainsAt(text, "**", k);
      }
    }
    NoMatchOnePiece(text, 0, 0);
    assert text[0..] == text;
    FilterKeepsAll([text], (x: string) => x != "");
    assert StyledParts(text) == [text];
    assert !MarkerAt(text, 0);
  }

  // ---------------------------------------------------------------------------
  // Article content: headings, lists and paragraphs
  // ---------------------------------------------------------------------------

  /** What `\s` matches. */
  predicate IsJsSpace(c: char) {
    || c == ' ' || c == '\t' || c == '\n' || c == '\U{000B}' || c == '\U{000C}' || c == '\r'
    || c == '\U{00A0}' || c == '\U{1680}' || ('\U{2000}' <= c <= '\U{200A}')
    || c == '\U{2028}' || c == '\U{2029}' || c == '\U{202F}' || c == '\U{205F}'
    || c == '\U{3000}' || c == '\U{FEFF}'
  }

  /** The length of the run of digits `s` starts with. */
  function DigitRun(s: string): (n: nat)
    ensures n <= |s|
    ensures forall i :: 0 <= i < n ==> IsDigit(s[i])
    ensures n < |s| ==> !IsDigit(s[n])
    decreases |s|
  {
    if s != [] && IsDigit(s[0]) then 1 + DigitRun(s[1..]) else 0
  }

  /** The length of the match of `/^\d+\.\s/`, if it matches. Backtracking to a
      shorter digit run cannot help, since a digit would then stand where the
      dot is needed. */
  function NumberedPrefix(s: string): (r: Option<nat>)
    ensures r.Some? ==> 3 <= r.value <= |s| && IsDigit(s[0])
    ensures r.Some? ==> s[r.value - 2] == '.' && IsJsSpace(s[r.value - 1])
    ensures r.Some? ==> forall i :: 0 <= i < r.value - 2 ==> IsDigit(s[i])
    ensures forall n: nat ::
      (1 <= n && n + 2 <= |s| && (forall i :: 0 <= i < n ==> IsDigit(s[i])) && s[n] == '.' && IsJsSpace(s[n + 1]))
      ==> r == Some(n + 2)
  {
    var n := DigitRun(s);
    if n >= 1 && n + 2 <= |s| && s[n] == '.' && IsJsSpace(s[n + 1]) then Some(n + 2) else None
  }

  /** `-` followed by whitespace starts at position `k`. */
  predicate DashSpaceAt(s: string, k: nat) {
    k + 2 <= |s| && s[k] == '-' && IsJsSpace(s[k + 1])
  }

  /** The first position where `-` is followed by whitespace. */
  function FirstDashSpace(s: string): (r: Option<nat>)
    ensures r.Some? ==> DashSpaceAt(s, r.value)
    ensures r.Some? ==> forall k: nat :: k < r.value ==> !DashSpaceAt(s, k)
    ensures r.None? ==> forall k: nat :: !DashSpaceAt(s, k)
    decreases |s|
  {
    if |s| < 2 then None
    else if s[0] == '-' && IsJsSpace(s[1]) then Some(0)
    else
      var rest := FirstDashSpace(s[1..]);
      assert forall k: nat | k > 0 :: DashSpaceAt(s, k) <==> DashSpaceAt(s[1..], k - 1);
      if rest.Some? then Some(rest.value + 1) else None
  }

  /** `item.replace(/-\s|^\d+\.\s/, '')`: the leftmost match is removed; at the
      start the dash alternative is tried first, elsewhere only it can match. */
  function StripItem(item: string): (r: string)
    ensures |r| <= |item|
  {
    var dash := FirstDashSpace(item);
    var numbered := NumberedPrefix(item);
    if dash == Some(0) then item[2..]
    else if numbered.Some? then item[numbered.value..]
    else if dash.Some? then item[..dash.value] + item[dash.value + 2..]
    else item
  }

  /** A line starting with a dash and whitespace, or with a number prefix,
      loses exactly that marker. */
  lemma StripItemCases(item: string)
    ensures StartsWith(item, "- ") ==> FirstDashSpace(item) == Some(0)
    ensures FirstDashSpace(item) == Some(0) ==> StripItem(item) == item[2..]
    ensures NumberedPrefix(item).Some? ==> StripItem(item) == item[NumberedPrefix(item).value..]
  {
    if StartsWith(item, "- ") {
      assert DashSpaceAt(item, 0);
    }
    if NumberedPrefix(item).Some? {
      assert IsDigit(item[0]) && !DashSpaceAt(item, 0);
    }
  }

  /** Any other line loses its first dash followed by whitespace, wherever it
      stands, and is kept whole when it has none. */
  lemma StripItemElsewhere(item: string)
    ensures NumberedPrefix(item).None? && FirstDashSpace(item).Some? ==>
      var k := FirstDashSpace(item).value;
      StripItem(item) == item[..k] + item[k + 2..]
    ensures FirstDashSpace(item).None? && NumberedPrefix(item).None? ==> StripItem(item) == item
  {
    var dash := FirstDashSpace(item);
    if dash == Some(0) {
      assert item[..0] + item[2..] == item[2..];
    }
  }

  datatype Block =
    | Heading(title: string)
    | ListBlock(numbered: bool, items: seq<seq<Segment>>)
    | Paragraph(segments: seq<Segment>)

  /** How one paragraph of an article is shown: the heading test comes first;
      a list is a paragraph starting with `- ` or a number prefix, numbered
      exactly in the latter case, with one item per line; everything else is
      a plain paragraph. */
  function Classify(paragraph: string): (b: Block)
    ensures b.Heading? <==> StartsWith(paragraph, "**") && EndsWith(paragraph, "**")
    ensures b.ListBlock? <==>
      !(StartsWith(paragraph, "**") && EndsWith(paragraph, "**"))
      && (StartsWith(paragraph, "- ") || NumberedPrefix(paragraph).Some?)
    ensures b.ListBlock? ==>
      && (b.numbered <==> NumberedPrefix(paragraph).Some?)
      && |b.items| == |SplitOn(paragraph, "\n")|
      && forall i :: 0 <= i < |b.items| ==> b.items[i] == RenderStyled(StripItem(SplitOn(paragraph, "\n")[i]))
    ensures b.Paragraph? ==> b.segments == RenderStyled(paragraph)
    ensures b.Heading? && |paragraph| >= 4 ==> b.title == paragraph[2..|paragraph| - 2]
  {
    if StartsWith(paragraph, "**") && EndsWith(paragraph, "**") then
      Heading(JsSubstring(paragraph, 2, |paragraph| - 2))
    else if StartsWith(paragraph, "- ") || NumberedPrefix(paragraph).Some? then
      var lines := SplitOn(paragraph, "\n");
      ListBlock(NumberedPrefix(paragraph).Some?,
        seq(|lines|, i requires 0 <= i < |lines| => RenderStyled(StripItem(lines[i]))))
    else
      Paragraph(RenderStyled(paragraph))
  }

  /** The expanded card's body: the content cut at its blank lines, which
      joined back give the content, each piece shown by the heading, list and
      paragraph rule. */
  function RenderContent(content: string): (r: seq<Block>)
    ensures Join(SplitOn(content, "\n\n"), "\n\n") == content
    ensures |r| == |SplitOn(content, "\n\n")|
    ensures forall i :: 0 <= i < |r| ==>
      var p := SplitOn(content, "\n\n")[i];
      && (r[i].Heading? <==> StartsWith(p, "**") && EndsWith(p, "**"))
      && (r[i].ListBlock? <==> !(StartsWith(p, "**") && EndsWith(p, "**")) && (StartsWith(p, "- ") || NumberedPrefix(p).Some?))
      && (r[i].Paragraph? ==> r[i].segments == RenderStyled(p))
  {
    ParagraphsCoverContent(content);
    var paragraphs := SplitOn(content, "\n\n");
    seq(|paragraphs|, i requires 0 <= i < |paragraphs| => Classify(paragraphs[i]))
  }

  /** The paragraphs shown are exactly the content cut at its blank lines:
      joined back they give the content, and none contains a blank line. */
  lemma ParagraphsCoverContent(content: string)
    ensures Join(SplitOn(content, "\n\n"), "\n\n") == content
    ensures forall k :: 0 <= k < |SplitOn(content, "\n\n")| ==> Free(SplitOn(content, "\n\n")[k], "\n\n")
  {
    SplitJoin(content, "\n\n", 0, 0);
    SplitPiecesFree(content, "\n\n", 0, 0);
  }

  // ---------------------------------------------------------------------------
  // Search, grouping and the expanded article
  // ---------------------------------------------------------------------------

  /** The search test: the lower-cased title or summary contains the
      lower-cased term. */
  predicate Matches(a: Article, term: string)
    ensures term == "" ==> Matches(a, term)
  {
    ContainsEmpty(Lower(a.title));
    Contains(Lower(a.title), Lower(term)) || Contains(Lower(a.summary), Lower(term))
  }

  /** The search ignores the case of the term. */
  lemma MatchesIgnoresCase(a: Article, term: string)
    ensures Matches(a, term) <==> Matches(a, Lower(term))
  {
    LowerIdempotent(term);
  }

  /** `filteredArticles` */
  function FilterArticles(articles: seq<Article>, term: string): (r: seq<Article>)
    ensures forall i :: 0 <= i < |r| ==> r[i] in articles && Matches(r[i], term)
    ensures forall i :: 0 <= i < |articles| && Matches(articles[i], term) ==> articles[i] in r
  {
    Filter(articles, (a: Article) => Matches(a, term))
  }

  /** The empty search shows every article; any search keeps the order; a
      search shows nothing exactly when no article matches. */
  lemma SearchProperties(articles: seq<Article>, term: string)
    ensures term == "" ==> FilterArticles(articles, term) == articles
    ensures IsSubsequence(FilterArticles(articles, term), articles)
    ensures FilterArticles(articles, term) == [] <==> forall i :: 0 <= i < |articles| ==> !Matches(articles[i], term)
  {
    var keep := (a: Article) => Matches(a, term);
    if term == "" {
      forall i | 0 <= i < |articles| ensures keep(articles[i]) {
        ContainsEmpty(Lower(articles[i].title));
      }
      FilterKeepsAll(articles, keep);
    }
    FilterIsSubsequence(articles, keep);
    FilterEmptyIff(articles, keep);
  }

  /** The articles of one category, in order. */
  function InCategory(s: seq<Article>, c: ArticleCategory): seq<Article> {
    Filter(s, (a: Article) => a.category == c)
  }

  /** The categories in the order their first article appears: the key order
      of the object the grouping builds. */
  function CategoriesInOrder(s: seq<Article>): (r: seq<ArticleCategory>)
    ensures |r| <= |s|
    ensures s != [] ==> r != [] && r[0] == s[0].category
    decreases |s|
  {
    if s == [] then []
    else
      var o := CategoriesInOrder(s[..|s| - 1]);
      if s[|s| - 1].category in o then o else o + [s[|s| - 1].category]
  }

  /** The key order lists each category of the results, and nothing else,
      exactly once. */
  lemma {:induction false} CategoriesInOrderSpec(s: seq<Article>)
    ensures forall i, j :: 0 <= i < j < |CategoriesInOrder(s)| ==> CategoriesInOrder(s)[i] != CategoriesInOrder(s)[j]
    ensures forall c :: c in CategoriesInOrder(s) <==> exists i :: 0 <= i < |s| && s[i].category == c
    decreases |s|
  {
    if s != [] {
      var init := s[..|s| - 1];
      CategoriesInOrderSpec(init);
      forall c ensures c in CategoriesInOrder(s) <==> exists i :: 0 <= i < |s| && s[i].category == c {
        if exists i :: 0 <= i < |s| && s[i].category == c {
          var i :| 0 <= i < |s| && s[i].category == c;
          if i < |s| - 1 {
            assert init[i].category == c;
          }
        }
        if exists i :: 0 <= i < |init| && init[i].category == c {
          var i :| 0 <= i < |init| && init[i].category == c;
          assert s[i].category == c;
        }
      }
    }
  }

  /** One more article: its category joins the key order if it is new. */
  lemma CategoriesStep(s: seq<Article>, a: Article)
    ensures CategoriesInOrder(s + [a])
         == if a.category in CategoriesInOrder(s) then CategoriesInOrder(s) else CategoriesInOrder(s) + [a.category]
  {
    assert (s + [a])[..|s|] == s;
  }

  /** One more article: it joins the group of its own category only, which
      was empty exactly when the category had not appeared yet. */
  lemma InCategoryStep(s: seq<Article>, a: Article, c: ArticleCategory)
    ensures InCategory(s + [a], c) == InCategory(s, c) + (if a.category == c then [a] else [])
    ensures c !in CategoriesInOrder(s) ==> InCategory(s, c) == []
  {
    FilterAppend(s, a, (x: Article) => x.category == c);
    FilterEmptyIff(s, (x: Article) => x.category == c);
    CategoriesInOrderSpec(s);
  }

  /** The grouping's state after a prefix of the results: `order` is its key
      order and `groups` holds each listed category's results so far. */
  ghost predicate Grouped(seen: seq<Article>, order: seq<ArticleCategory>, groups: map<ArticleCategory, seq<Article>>) {
    && order == CategoriesInOrder(seen)
    && (forall c :: c in groups <==> c in order)
    && (forall c :: c in groups ==> groups[c] == InCategory(seen, c))
  }

  /** One more result: pushing it onto its category's group, created empty
      when missing, keeps the grouping's state. */
  lemma GroupStep(seen: seq<Article>, a: Article, order: seq<ArticleCategory>, groups: map<ArticleCategory, seq<Article>>)
    requires Grouped(seen, order, groups)
    ensures a.category !in groups ==> Grouped(seen + [a], order + [a.category], groups[a.category := [a]])
    ensures a.category in groups ==> Grouped(seen + [a], order, groups[a.category := groups[a.category] + [a]])
  {
    CategoriesStep(seen, a);
    var g := if a.category in groups then groups[a.category := groups[a.category] + [a]] else groups[a.category := [a]];
    forall c | c in g ensures g[c] == InCategory(seen + [a], c) {
      InCategoryStep(seen, a, c);
    }
  }

  /** `groupedArticles`: `order` is the key order and `groups` the entries. */
  method GroupByCategory(filtered: seq<Article>)
    returns (order: seq<ArticleCategory>, groups: map<ArticleCategory, seq<Article>>)
    ensures order == CategoriesInOrder(filtered)
    ensures forall c :: c in groups <==> c in order
    ensures forall c :: c in groups ==> groups[c] == InCategory(filtered, c)
  {
    order := [];
    groups := map[];
    for i := 0 to |filtered|
      invariant Grouped(filtered[..i], order, groups)
    {
      var a := filtered[i];
      assert filtered[..i + 1] == filtered[..i] + [a];
      GroupStep(filtered[..i], a, order, groups);
      if a.category !in groups {
        groups := groups[a.category := [a]];
        order := order + [a.category];
      } else {
        groups := groups[a.category := groups[a.category] + [a]];
      }
    }
    assert filtered[..|filtered|] == filtered;
  }

  /** Every filtered article is in the group of its own category and in no
      other, and each group keeps the filtered order. */
  lemma GroupingPartitions(filtered: seq<Article>, c: ArticleCategory, a: Article)
    ensures a in InCategory(filtered, c) <==> a in filtered && a.category == c
    ensures IsSubsequence(InCategory(filtered, c), filtered)
  {
    if a in filtered && a.category == c {
      var i :| 0 <= i < |filtered| && filtered[i] == a;
    }
    if a in InCategory(filtered, c) {
      var i :| 0 <= i < |InCategory(filtered, c)| && InCategory(filtered, c)[i] == a;
    }
    FilterIsSubsequence(filtered, (x: Article) => x.category == c);
  }

  /** `handleToggleArticle`: collapse the expanded article, or expand this one
      in place of any other. */
  function ToggleExpanded(expanded: Option<string>, articleId: string): (r: Option<string>)
    ensures r == None <==> expanded == Some(articleId)
    ensures r != None ==> r == Some(articleId)
  {
    if expanded == Some(articleId) then None else Some(articleId)
  }

  /** Toggling the same article twice gives the previous state back when it
      was collapsed or was the expanded one. */
  lemma ToggleTwice(expanded: Option<string>, articleId: string)
    requires expanded == None || expanded == Some(articleId)
    ensures ToggleExpanded(ToggleExpanded(expanded, articleId), articleId) == expanded
  {
  }
}
