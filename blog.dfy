/**
 * The pure parts of the blog section (script.js:140-179): whether the feed or
 * the fallback is shown, which tags a card gets, and how an article's HTML
 * description is cleaned into an excerpt.
 */
module Blog {
  import opened Wrappers

  /** What the fetch of the feed produced. */
  datatype FetchResult<T> =
    | NetworkError                                  // rejected, or aborted by the timeout
    | HttpError(code: int)                          // `!response.ok`
    | Payload(status: string, items: Option<seq<T>>) // the parsed JSON

  datatype BlogView<T> = ShowArticles(articles: seq<T>) | ShowFallback

  /** The latest articles shown at most. */
  const MaxArticles: nat := 6

  /** The decision of `fetchMediumBlogs` on the payload: show the first six items of an `ok`,
    * non-empty feed, and the fallback content in every other case. A throw while rendering
    * the articles, which also leads to the fallback, is not modelled. */
  function FeedView<T>(response: FetchResult<T>): (v: BlogView<T>)
    ensures v.ShowArticles? <==>
      response.Payload? && response.status == "ok" && response.items.Some? && |response.items.value| > 0
    ensures v.ShowArticles? ==>
      && 1 <= |v.articles| <= MaxArticles
      && |v.articles| == Min(MaxArticles, |response.items.value|)
      && v.articles <= response.items.value
  {
    match response
    case Payload(status, Some(items)) =>
      if status == "ok" && |items| > 0 then ShowArticles(items[..Min(MaxArticles, |items|)]) else ShowFallback
    case _ => ShowFallback
  }

  const MaxTags: nat := 3

  /** `article.categories ? article.categories.slice(0, 3) : ['Security']`. */
  function Tags(categories: Option<seq<string>>): (tags: seq<string>)
    ensures categories.None? ==> tags == ["Security"]
    ensures categories.Some? ==> tags <= categories.value && |tags| == Min(MaxTags, |categories.value|)
  {
    match categories
    case None => ["Security"]
    case Some(cs) => cs[..Min(MaxTags, |cs|)]
  }

  /** An empty array is truthy: a card whose categories are `[]` gets no tag at all. */
  lemma EmptyCategoriesNoTags()
    ensures Tags(Some([])) == []
  {
  }

  // ---------------------------------------------------------------------
  // Description cleaning

  /** The position of the first `c` in `s`. */
  function IndexOf(s: string, c: char): (k: nat)
    requires c in s
    ensures k < |s| && s[k] == c && c !in s[..k]
  {
    if s[0] == c then 0 else assert s == [s[0]] + s[1..]; 1 + IndexOf(s[1..], c)
  }

  /**
   * `s.replace(/<[^>]*>/g, '')`: from left to right, a `<` that has a `>`
   * somewhere after it starts a match that runs to the first such `>` (it may
   * contain further `<`) and is removed; a `<` without a later `>` is kept.
   */
  function StripTags(s: string): (r: string)
    ensures |r| <= |s|
    decreases |s|
  {
    if s == [] then []
    else if s[0] == '<' && '>' in s then StripTags(s[IndexOf(s, '>') + 1..])
    else [s[0]] + StripTags(s[1..])
  }

  /** No `<` is followed, anywhere later, by a `>`: nothing tag-like is left. */
  predicate NoTags(s: string) {
    forall a, b :: 0 <= a < b < |s| && s[a] == '<' ==> s[b] != '>'
  }

  lemma {:induction false} StripTagsKeepsOnly(s: string, c: char)
    requires c !in s
    ensures c !in StripTags(s)
    decreases |s|
  {
    if s != [] {
      if s[0] == '<' && '>' in s {
        var k := IndexOf(s, '>');
        assert forall x :: x in s[k + 1..] ==> x in s;
        StripTagsKeepsOnly(s[k + 1..], c);
      } else {
        assert forall x :: x in s[1..] ==> x in s;
        StripTagsKeepsOnly(s[1..], c);
      }
    }
  }

  /** The regular expression leaves no `<` with a `>` after it. */
  lemma {:induction false} StripTagsNoTags(s: string)
    ensures NoTags(StripTags(s))
    decreases |s|
  {
    if s != [] {
      if s[0] == '<' && '>' in s {
        StripTagsNoTags(s[IndexOf(s, '>') + 1..]);
      } else {
        var tail := StripTags(s[1..]);
        StripTagsNoTags(s[1..]);
        var r := [s[0]] + tail;
        if s[0] == '<' {
          assert '>' !in s[1..];
          StripTagsKeepsOnly(s[1..], '>');
        }
        forall a, b | 0 <= a < b < |r| && r[a] == '<' ensures r[b] != '>' {
          assert r[b] == tail[b - 1];
          if a > 0 {
            assert r[a] == tail[a - 1];
          }
        }
      }
    }
  }

  /** Text with nothing tag-like in it passes through unchanged. */
  lemma {:induction false} StripTagsOfNoTags(s: string)
    requires NoTags(s)
    ensures StripTags(s) == s
    decreases |s|
  {
    if s != [] {
      if s[0] == '<' {
        assert '>' !in s by {
          forall b | 0 <= b < |s| ensures s[b] != '>' {
            if b > 0 { assert s[0] == '<'; }
          }
        }
      }
      assert NoTags(s[1..]) by {
        forall a, b | 0 <= a < b < |s[1..]| && s[1..][a] == '<' ensures s[1..][b] != '>' {
          assert s[a + 1] == '<';
        }
      }
      StripTagsOfNoTags(s[1..]);
      assert s == [s[0]] + s[1..];
    }
  }

  /** Text before the first `<` is kept as it is. */
  lemma {:induction false} StripTagsPlain(a: string, b: string)
    requires '<' !in a
    ensures StripTags(a + b) == a + StripTags(b)
    decreases |a|
  {
    if a == [] {
      assert a + b == b;
    } else {
      assert (a + b)[0] == a[0] != '<';
      assert (a + b)[1..] == a[1..] + b;
      assert forall x :: x in a[1..] ==> x in a;
      StripTagsPlain(a[1..], b);
      assert a == [a[0]] + a[1..];
    }
  }

  /** A `<` up to the first `>` after it is one match: it is removed, and the rest is cleaned. */
  lemma StripTagsTag(t: string, b: string)
    requires '>' !in t
    ensures StripTags(['<'] + t + ['>'] + b) == StripTags(b)
  {
    var s := ['<'] + t + ['>'] + b;
    assert s[|t| + 1] == '>';
    var k := IndexOf(s, '>');
    assert k == |t| + 1;
    assert s[k + 1..] == b;
  }

  /** A `<` with no `>` anywhere after it is kept, and so is everything after it. */
  lemma StripTagsUnclosed(t: string)
    requires '>' !in t
    ensures StripTags(['<'] + t) == ['<'] + t
  {
    var s := ['<'] + t;
    assert '>' !in s;
    assert s[1..] == t;
    StripTagsOfNoTags(t);
  }

  /** Cleaning twice is cleaning once. */
  lemma StripTagsIdempotent(s: string)
    ensures StripTags(StripTags(s)) == StripTags(s)
  {
    StripTagsNoTags(s);
    StripTagsOfNoTags(StripTags(s));
  }

  const ExcerptLength: nat := 150

  /** A prefix of text without tags has none either. */
  lemma NoTagsPrefix(s: string, n: nat)
    requires NoTags(s) && n <= |s|
    ensures NoTags(s[..n])
  {
    assert forall a :: 0 <= a < n ==> s[..n][a] == s[a];
  }

  /** The ellipsis adds no `>` that could close a tag. */
  lemma NoTagsEllipsis(s: string)
    requires NoTags(s)
    ensures NoTags(s + "...")
  {
    var r := s + "...";
    forall a, b | 0 <= a < b < |r| && r[a] == '<' ensures r[b] != '>' {
      if b < |s| {
        assert r[a] == s[a] && r[b] == s[b];
      } else {
        assert r[b] == "..."[b - |s|];
      }
    }
  }

  /** `description.replace(/<[^>]*>/g, '').substring(0, 150) + '...'`. */
  function CleanDescription(description: string): (r: string)
    ensures |r| <= ExcerptLength + 3
    ensures |r| >= 3 && r[|r| - 3..] == "..."
    ensures r[..|r| - 3] <= StripTags(description)
    ensures |r| == Min(ExcerptLength, |StripTags(description)|) + 3
    ensures |StripTags(description)| <= ExcerptLength ==> r == StripTags(description) + "..."
    ensures NoTags(r)
  {
    var text := StripTags(description);
    var excerpt := text[..Min(ExcerptLength, |text|)];
    StripTagsNoTags(description);
    NoTagsPrefix(text, |excerpt|);
    var r := excerpt + "...";
    NoTagsEllipsis(excerpt);
    assert r[..|r| - 3] == excerpt;
    r
  }
}
