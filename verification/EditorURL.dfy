/** The URL at which the browser opens the editor. */
module EditorURL {

  datatype Params = Params(wopiSrc: string, accessToken: string, ttlMs: int, lang: string)

  // What the service takes from the standard library: url.QueryEscape, and the decimal
  // digits of a number.
  datatype Library = Library(escape: string -> string, decimal: int -> string)

  // Different values have different renderings, none of which holds an ampersand.
  ghost predicate Sound(lib: Library) {
    && (forall a, b :: lib.escape(a) == lib.escape(b) ==> a == b)
    && (forall a, b :: lib.decimal(a) == lib.decimal(b) ==> a == b)
    && (forall a :: '&' !in lib.escape(a))
    && (forall a :: '&' !in lib.decimal(a))
  }

  // strings.TrimSuffix(s, "/").
  function TrimSlash(s: string): string {
    if s != "" && s[|s| - 1] == '/' then s[..|s| - 1] else s
  }

  lemma TrimSlashIs(s: string)
    ensures TrimSlash(s) == s || TrimSlash(s) + "/" == s
    ensures TrimSlash(s) == s <==> s == "" || s[|s| - 1] != '/'
  {
  }

  // The address at which Collabora finds the document.
  function WOPISrc(callbackURL: string, documentID: string): string {
    callbackURL + "/wopi/files/" + documentID
  }

  function LangPart(lib: Library, lang: string): string {
    if lang == "" then "" else "&lang=" + lib.escape(lang)
  }

  function TTLPart(lib: Library, p: Params): string {
    "&access_token_ttl=" + (lib.decimal(p.ttlMs) + LangPart(lib, p.lang))
  }

  function TokenPart(lib: Library, p: Params): string {
    "&access_token=" + (lib.escape(p.accessToken) + TTLPart(lib, p))
  }

  function Query(lib: Library, p: Params): string {
    "WOPISrc=" + (lib.escape(p.wopiSrc) + TokenPart(lib, p))
  }

  // The query goes on after the one the path has, if it has one.
  function Build(lib: Library, baseURL: string, editorPath: string, p: Params): string {
    baseURL + editorPath + (if '?' in editorPath then "&" else "?") + Query(lib, p)
  }

  lemma Regroup(a: string, b: string, c: string, d: string, e: string, f: string, g: string, h: string)
    ensures a + b + c + d + e + f + g + h == a + (b + (c + (d + (e + (f + (g + h))))))
  {
  }

  // The URL as Sprintf and the later append put it together.
  lemma BuildIs(lib: Library, front: string, p: Params)
    ensures front + "WOPISrc=" + lib.escape(p.wopiSrc) + "&access_token=" + lib.escape(p.accessToken)
            + "&access_token_ttl=" + lib.decimal(p.ttlMs) + LangPart(lib, p.lang)
         == front + Query(lib, p)
  {
    hide LangPart;
    Regroup(front, "WOPISrc=", lib.escape(p.wopiSrc), "&access_token=", lib.escape(p.accessToken),
            "&access_token_ttl=", lib.decimal(p.ttlMs), LangPart(lib, p.lang));
  }

  lemma Cancel(prefix: string, x: string, y: string)
    requires prefix + x == prefix + y
    ensures x == y
  {
    assert (prefix + x)[|prefix|..] == x && (prefix + y)[|prefix|..] == y;
  }

  lemma Ampersand(x: string, y: string, u: string, v: string)
    requires |x| < |y| && x + u == y + v && (u == "" || u[0] == '&')
    ensures '&' in y
  {
    assert (x + u)[|x|] == y[|x|];
  }

  // A value ends at the first ampersand, or at the end.
  lemma Cut(x: string, y: string, u: string, v: string)
    requires '&' !in x && '&' !in y && x + u == y + v
    requires (u == "" || u[0] == '&') && (v == "" || v[0] == '&')
    ensures x == y && u == v
  {
    if |x| < |y| {
      Ampersand(x, y, u, v);
    } else if |y| < |x| {
      Ampersand(y, x, v, u);
    } else {
      assert x == (x + u)[..|x|] && y == (y + v)[..|x|];
      Cancel(x, u, v);
    }
  }

  /** Editor URLs for one editor page differ as soon as the document, the token, its expiry
      or the language differ: all four can be read back. */
  lemma URLDeterminesItsParameters(lib: Library, baseURL: string, editorPath: string, p: Params, q: Params)
    requires Sound(lib) && Build(lib, baseURL, editorPath, p) == Build(lib, baseURL, editorPath, q)
    ensures p == q
  {
    Cancel(baseURL + editorPath + (if '?' in editorPath then "&" else "?"), Query(lib, p), Query(lib, q));
    Cancel("WOPISrc=", lib.escape(p.wopiSrc) + TokenPart(lib, p), lib.escape(q.wopiSrc) + TokenPart(lib, q));
    Cut(lib.escape(p.wopiSrc), lib.escape(q.wopiSrc), TokenPart(lib, p), TokenPart(lib, q));
    Cancel("&access_token=", lib.escape(p.accessToken) + TTLPart(lib, p), lib.escape(q.accessToken) + TTLPart(lib, q));
    Cut(lib.escape(p.accessToken), lib.escape(q.accessToken), TTLPart(lib, p), TTLPart(lib, q));
    Cancel("&access_token_ttl=", lib.decimal(p.ttlMs) + LangPart(lib, p.lang),
           lib.decimal(q.ttlMs) + LangPart(lib, q.lang));
    Cut(lib.decimal(p.ttlMs), lib.decimal(q.ttlMs), LangPart(lib, p.lang), LangPart(lib, q.lang));
    LangBack(lib, p.lang, q.lang);
  }

  /** The addresses of different documents differ, and so do the editor URLs made of them. */
  lemma URLDeterminesTheDocument(lib: Library, baseURL: string, editorPath: string, callbackURL: string,
                                 d: string, e: string, p: Params, q: Params)
    requires Sound(lib) && Build(lib, baseURL, editorPath, p) == Build(lib, baseURL, editorPath, q)
    requires p.wopiSrc == callbackURL + "/wopi/files/" + d && q.wopiSrc == callbackURL + "/wopi/files/" + e
    ensures d == e
  {
    URLDeterminesItsParameters(lib, baseURL, editorPath, p, q);
    Cancel(callbackURL + "/wopi/files/", d, e);
  }

  // How many of these characters there are.
  function Count(c: char, s: string): nat {
    if s == "" then 0 else (if s[0] == c then 1 else 0) + Count(c, s[1..])
  }

  lemma {:induction false} CountOf(c: char, a: string, b: string)
    ensures Count(c, a + b) == Count(c, a) + Count(c, b)
  {
    if a == "" {
      assert a + b == b;
    } else {
      CountOf(c, a[1..], b);
      assert (a + b)[1..] == a[1..] + b;
    }
  }

  lemma {:induction false} CountNone(c: char, s: string)
    requires c !in s
    ensures Count(c, s) == 0
  {
    if s != "" {
      CountNone(c, s[1..]);
    }
  }

  lemma QueryHasNoMark(lib: Library, p: Params)
    requires forall a :: '?' !in lib.escape(a)
    requires forall a :: '?' !in lib.decimal(a)
    ensures '?' !in Query(lib, p)
  {
  }

  /** The editor URL begins with the base URL and the editor's path, goes on with the service's
      own query, and has a question mark of its own exactly if the path has none; so it has
      exactly one if the base URL has none and the path at most one. */
  lemma URLHasOneQuery(lib: Library, baseURL: string, editorPath: string, p: Params)
    requires forall a :: '?' !in lib.escape(a)
    requires forall a :: '?' !in lib.decimal(a)
    ensures baseURL + editorPath <= Build(lib, baseURL, editorPath, p)
    ensures Build(lib, baseURL, editorPath, p)[|baseURL + editorPath|] == if '?' in editorPath then '&' else '?'
    ensures Build(lib, baseURL, editorPath, p)[|baseURL + editorPath| + 1..] == Query(lib, p)
    ensures '?' !in baseURL && Count('?', editorPath) <= 1 ==> Count('?', Build(lib, baseURL, editorPath, p)) == 1
  {
    hide Query;
    var sep := if '?' in editorPath then "&" else "?";
    QueryHasNoMark(lib, p);
    CountNone('?', Query(lib, p));
    CountOf('?', baseURL + editorPath + sep, Query(lib, p));
    CountOf('?', baseURL + editorPath, sep);
    CountOf('?', baseURL, editorPath);
    if '?' !in baseURL {
      CountNone('?', baseURL);
    }
    if '?' !in editorPath {
      CountNone('?', editorPath);
    } else {
      CountSome('?', editorPath);
    }
    assert Count('?', sep) == if '?' in editorPath then 0 else 1;
  }

  lemma {:induction false} CountSome(c: char, s: string)
    requires c in s
    ensures Count(c, s) >= 1
  {
    if s[0] != c {
      CountSome(c, s[1..]);
    }
  }

  lemma LangBack(lib: Library, a: string, b: string)
    requires Sound(lib) && LangPart(lib, a) == LangPart(lib, b)
    ensures a == b
  {
    if a != "" && b != "" {
      Cancel("&lang=", lib.escape(a), lib.escape(b));
    }
  }
}
