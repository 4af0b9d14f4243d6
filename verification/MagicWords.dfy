/** src/challenger.cpp: which URLs of a password-protected site need authentication. */
module MagicWords {
  import opened Bytes

  /** A substring to look for, or a regular expression as an unknown predicate of the URL. */
  datatype MagicWord = Substr(word: Str) | Regexp(matches: Str -> bool)

  /** `url.find(word) != npos`. */
  method Contains(s: Str, needle: Str) returns (found: bool)
    ensures found <==> Occurs(s, needle)
  {
    var i := 0;
    while i + |needle| <= |s|
      invariant forall k :: k < i ==> !OccursAt(s, needle, k)
    {
      if s[i..i + |needle|] == needle {
        assert OccursAt(s, needle, i);
        return true;
      }
      i := i + 1;
    }
    return false;
  }

  ghost predicate WordMatches(w: MagicWord, url: Str) {
    match w
    case Substr(word) => Occurs(url, word)
    case Regexp(matches) => matches(url)
  }

  /** `MagicWord::is_match`. */
  method IsMatch(w: MagicWord, url: Str) returns (ok: bool)
    ensures ok <==> WordMatches(w, url)
  {
    match w
    case Substr(word) => ok := Contains(url, word);
    case Regexp(matches) => ok := matches(url);
  }

  /** The URL up to the first '?'. */
  function Path(url: Str): Str {
    match Find(url, QUESTION)
    case None => url
    case Some(i) => url[..i]
  }

  /**
   * `std::search` over the path does not return the end: the word occurs, and at a position before the end.
   * Only the empty word in an empty path makes a difference.
   */
  ghost predicate Excepted(path: Str, exception: Str) {
    Occurs(path, exception) && path != []
  }

  /** Some magic word matches anywhere in the URL and no exception occurs before the first '?'. */
  ghost predicate Protected(url: Str, words: seq<MagicWord>, exceptions: seq<Str>) {
    && (exists w :: w in words && WordMatches(w, url))
    && (forall e :: e in exceptions ==> !Excepted(Path(url), e))
  }

  /** `needs_authentication`. */
  method NeedsAuthentication(url: Str, words: seq<MagicWord>, exceptions: seq<Str>) returns (needed: bool)
    ensures needed <==> Protected(url, words, exceptions)
  {
    hide WordMatches, Occurs;
    var isProtected := false;
    for k := 0 to |words|
      invariant !isProtected && forall i :: 0 <= i < k ==> !WordMatches(words[i], url)
    {
      isProtected := IsMatch(words[k], url);
      if isProtected {
        break;
      }
    }
    if !isProtected {
      return false;
    }
    var path := Path(url);
    for k := 0 to |exceptions|
      invariant forall i :: 0 <= i < k ==> !Excepted(path, exceptions[i])
    {
      var found := Contains(path, exceptions[k]);
      if found && path != [] {
        assert Excepted(path, exceptions[k]);
        return false;
      }
    }
    return true;
  }

  // ----- queries cannot lift protection -----

  lemma {:induction false} OccursInLonger(s: Str, t: Str, needle: Str)
    requires Occurs(s, needle)
    ensures Occurs(s + t, needle)
  {
    var i :| OccursAt(s, needle, i);
    assert (s + t)[i..i + |needle|] == s[i..i + |needle|];
    assert OccursAt(s + t, needle, i);
  }

  lemma {:induction false} FindBehind(url: Str, rest: Str)
    requires QUESTION !in url
    ensures Find(url + [QUESTION] + rest, QUESTION) == Some(|url|)
  {
    var longer := url + [QUESTION] + rest;
    if url == [] {
      assert longer[0] == QUESTION;
    } else {
      assert url[0] in url && longer[0] == url[0];
      assert longer[1..] == url[1..] + [QUESTION] + rest;
      FindBehind(url[1..], rest);
    }
  }

  lemma {:induction false} PathOfQuery(url: Str, query: Str)
    requires QUESTION !in url
    ensures Path(url) == url && Path(url + [QUESTION] + query) == url
  {
    FindBehind(url, query);
    assert (url + [QUESTION] + query)[..|url|] == url;
  }

  /** With substring words, appending any query to a protected URL leaves it protected. */
  lemma {:induction false} QueryKeepsProtection(url: Str, query: Str, words: seq<MagicWord>, exceptions: seq<Str>)
    requires QUESTION !in url && (forall w :: w in words ==> w.Substr?)
    requires Protected(url, words, exceptions)
    ensures Protected(url + [QUESTION] + query, words, exceptions)
  {
    hide Path, Occurs;
    PathOfQuery(url, query);
    var w :| w in words && WordMatches(w, url);
    var longer := url + [QUESTION] + query;
    assert longer == url + ([QUESTION] + query);
    OccursInLonger(url, [QUESTION] + query, w.word);
    assert WordMatches(w, longer);
  }

  /**
   * A URL with a query is protected exactly when a magic word occurs or matches anywhere in it and no exception occurs
   * in front of the '?': a query can bring in a word, and exceptions in it do not count.
   */
  lemma {:induction false} QueryOnlyAddsWords(url: Str, query: Str, words: seq<MagicWord>, exceptions: seq<Str>)
    requires QUESTION !in url
    ensures var whole := url + [QUESTION] + query;
            Protected(whole, words, exceptions) <==>
            && (exists w :: w in words && if w.Substr? then Occurs(whole, w.word) else w.matches(whole))
            && (forall e :: e in exceptions ==> url == [] || !Occurs(url, e))
  {
    hide Path, Occurs;
    PathOfQuery(url, query);
    var whole := url + [QUESTION] + query;
    assert forall w :: w in words ==>
             (WordMatches(w, whole) <==> if w.Substr? then Occurs(whole, w.word) else w.matches(whole));
  }

  /** The same without a query. */
  lemma {:induction false} PlainProtected(url: Str, words: seq<MagicWord>, exceptions: seq<Str>)
    requires QUESTION !in url
    ensures Protected(url, words, exceptions) <==>
            && (exists w :: w in words && if w.Substr? then Occurs(url, w.word) else w.matches(url))
            && (forall e :: e in exceptions ==> url == [] || !Occurs(url, e))
  {
    hide Path, Occurs;
    PathOfQuery(url, []);
    assert forall w :: w in words ==> (WordMatches(w, url) <==> if w.Substr? then Occurs(url, w.word) else w.matches(url));
  }
}
