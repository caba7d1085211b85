/**
 * The URL string helpers of the detector: scheme normalisation, the
 * registrable-host split used for the registration lookup, the page-text
 * truncation, and the (unused) 200-399 validity predicate.
 */
module Urls {
  import opened Wrappers
  import opened Text

  predicate HasScheme(url: string) {
    StartsWith(url, "http://") || StartsWith(url, "https://")
  }

  /** `_normalize_url`: prefix `http://` unless the URL already names http or https. */
  function NormalizeUrl(url: string): (r: string)
    ensures HasScheme(r)
    ensures HasScheme(url) <==> r == url
    ensures !HasScheme(url) ==> r == "http://" + url
  {
    if !HasScheme(url) then
      assert StartsWith("http://" + url, "http://");
      "http://" + url
    else
      url
  }

  /** Normalising is idempotent: a normalised URL is left alone. */
  lemma NormalizeIdempotent(url: string)
    ensures NormalizeUrl(NormalizeUrl(url)) == NormalizeUrl(url)
  {
  }

  // ---------------------------------------------------------------------------
  // Page text truncation

  /** The page-text budget handed to the summariser. */
  const MaxContentLength: nat := 10000

  /** `response.text[:10000] if len(response.text) > 10000 else response.text`. */
  function TruncateContent(text: string): (r: string)
    ensures StartsWith(text, r)
    ensures |r| == if |text| > MaxContentLength then MaxContentLength else |text|
  {
    if |text| > MaxContentLength then text[..MaxContentLength] else text
  }

  /** Truncating twice is truncating once. */
  lemma TruncateIdempotent(text: string)
    ensures TruncateContent(TruncateContent(text)) == TruncateContent(text)
  {
  }

  // ---------------------------------------------------------------------------
  // Validity check

  /**
   * `_check_url_validity`: given the final status code of a redirect-following
   * HEAD request (`None` when the request raised), the URL is valid exactly
   * when that code lies in 200..399; the code is passed back unchanged.
   */
  function CheckUrlValidity(status: Option<int>): (r: (bool, Option<int>))
    ensures r.1 == status
    ensures r.0 <==> status.Some? && 200 <= status.value < 400
  {
    match status
    case None => (false, None)
    case Some(code) => (200 <= code < 400, Some(code))
  }

  // ---------------------------------------------------------------------------
  // Registrable host

  /**
   * The host as the source writes it: `url.split("//")[-1].split("/")[0]`,
   * the last piece of the left-to-right split on `//`, up to its first `/`.
   * For a URL whose last `//` is not part of a longer run of slashes this is
   * the text after that `//` (`HostAfterLastDoubleSlash`).
   */
  function HostAsWritten(url: string): (r: string)
    ensures '/' !in r
  {
    var tail := LastPiece(url, "//");
    SplitCharHeadFree(tail, '/');
    Split(tail, "/")[0]
  }

  /**
   * The host as evidently intended: the text after the FIRST `//`, up to the
   * next `/` (Python's `url.split("//", 1)[-1].split("/")[0]`).
   */
  function Host(url: string): (r: string)
    ensures '/' !in r
  {
    var after := match Find(url, "//") case None => url case Some(i) => url[i + 2..];
    SplitCharHeadFree(after, '/');
    Split(after, "/")[0]
  }

  /**
   * The intended property: for `scheme//host/rest`, the host is `host`, whatever
   * the rest (path, query, an embedded URL) holds.
   */
  lemma HostOfAuthority(scheme: string, host: string, rest: string)
    requires '/' !in scheme && '/' !in host
    requires rest == [] || rest[0] == '/'
    ensures Host(scheme + "//" + host + rest) == host
  {
    var url := scheme + "//" + host + rest;
    assert OccursAt(url, "//", |scheme|) by {
      assert url[|scheme|] == '/' && url[|scheme| + 1] == '/';
      assert url[|scheme|..|scheme| + 2] == "//";
    }
    forall j | 0 <= j < |scheme| ensures !OccursAt(url, "//", j) {
      assert url[j] == scheme[j];
    }
    var k := Find(url, "//");
    assert k == Some(|scheme|);
    assert url[|scheme| + 2..] == host + rest;
    SplitCharHead(host, rest, '/');
  }

  /**
   * `split("//")[-1]` is whatever follows the last `//`: with `x` not ending in
   * `/` and a tail `t` that holds no `//` and does not start with `/`, the last
   * piece of `x//t` is `t`.
   */
  lemma SplitLastPiece(x: string, t: string)
    requires |x| == 0 || x[|x| - 1] != '/'
    requires !Contains(t, "//") && (|t| == 0 || t[0] != '/')
    ensures |Split(x + "//" + t, "//")| >= 2 && LastPiece(x + "//" + t, "//") == t
  {
    LastPieceAfterDoubled(x, "//", t);
  }

  /** `SplitLastPiece` for any separator made of one character twice. */
  lemma {:induction false} LastPieceAfterDoubled(x: string, sep: string, t: string)
    requires |sep| == 2 && sep[0] == sep[1]
    requires |x| == 0 || x[|x| - 1] != sep[0]
    requires !Contains(t, sep) && (|t| == 0 || t[0] != sep[0])
    ensures |Split(x + sep + t, sep)| >= 2 && LastPiece(x + sep + t, sep) == t
    decreases |x|
  {
    var s := x + sep + t;
    if |x| == 0 {
      assert s[..2] == sep && s[2..] == t;
      SplitAbsent(t, sep);
      LastPieceAfterSep(s, sep);
    } else if s[..2] == sep {
      assert |x| >= 2 by {
        assert s[..2][0] == s[0] == x[0];
      }
      assert s[2..] == x[2..] + sep + t;
      LastPieceAfterDoubled(x[2..], sep, t);
      LastPieceAfterSep(s, sep);
    } else {
      assert s[1..] == x[1..] + sep + t;
      LastPieceAfterDoubled(x[1..], sep, t);
      LastPiecePastChar(s, sep);
    }
  }

  /** A separator at the front adds an empty first piece and keeps the last one. */
  lemma LastPieceAfterSep(s: string, sep: string)
    requires |sep| > 0 && |s| >= |sep| && s[..|sep|] == sep
    ensures |Split(s, sep)| == |Split(s[|sep|..], sep)| + 1
    ensures LastPiece(s, sep) == LastPiece(s[|sep|..], sep)
  {
    assert Split(s, sep) == [""] + Split(s[|sep|..], sep);
  }

  /** A first character that starts no separator joins the first piece; with two or more pieces the last one is kept. */
  lemma LastPiecePastChar(s: string, sep: string)
    requires |sep| > 0 && |s| >= |sep| && s[..|sep|] != sep
    requires |Split(s[1..], sep)| >= 2
    ensures |Split(s, sep)| == |Split(s[1..], sep)|
    ensures LastPiece(s, sep) == LastPiece(s[1..], sep)
  {
    var q := Split(s[1..], sep);
    assert Split(s, sep) == [[s[0]] + q[0]] + q[1..];
  }

  /**
   * When the last `//` stands alone (no `/` just before or just after it)
   * and no `//` follows, the as-written host is the text after that `//`,
   * up to the next `/`.
   */
  lemma HostAfterLastDoubleSlash(x: string, t: string)
    requires |x| == 0 || x[|x| - 1] != '/'
    requires !Contains(t, "//") && (|t| == 0 || t[0] != '/')
    ensures HostAsWritten(x + "//" + t) == Split(t, "/")[0]
  {
    SplitLastPiece(x, t);
  }

  /**
   * A run of three slashes splits as `//` then `/`: for `http:///x` the last
   * piece is `/x` and the as-written host is empty, not `x`.
   */
  lemma HostAsWrittenTripleSlash()
    ensures Split("http:///x", "//") == ["http:", "/x"]
    ensures HostAsWritten("http:///x") == ""
  {
    TripleSlashPieces();
    assert Split("/x", "/") == [""] + Split("x", "/") by {
      assert "/x"[..1] == "/";
      assert "/x"[1..] == "x";
    }
  }

  lemma TripleSlashPieces()
    ensures Split("http:///x", "//") == ["http:", "/x"]
  {
    var s := "http:///x";
    TripleSlashFind();
    SplitAtFind(s, "//");
    assert s[..5] == "http:" && s[7..] == "/x";
    SlashX();
  }

  lemma TripleSlashFind()
    ensures Find("http:///x", "//") == Some(5)
  {
    var s := "http:///x";
    assert OccursAt(s, "//", 5) by {
      assert s[5..7] == "//";
    }
    forall j | 0 <= j < 5 ensures !OccursAt(s, "//", j) {
      assert s[j] != '/';
    }
  }

  lemma SlashX()
    ensures Split("/x", "//") == ["/x"]
  {
    assert "/x"[..2][1] == 'x';
    assert "/x"[1..] == "x";
    assert Split("x", "//") == ["x"];
    assert ['/'] + "x" == "/x";
  }

  /** A string without `/` holds no `//`. */
  lemma NoSlashNoDoubleSlash(s: string)
    requires '/' !in s
    ensures !Contains(s, "//")
  {
    forall i | 0 <= i <= |s| ensures !OccursAt(s, "//", i) {
      if i + 2 <= |s| {
        assert s[i..i + 2][0] == s[i];
      }
    }
  }

  /**
   * The source's host split follows an embedded URL: for a link to host `a`
   * whose query carries a link to host `b`, the registration lookup is asked
   * about `b`, while the intended host is `a`.
   */
  lemma HostAsWrittenFollowsEmbeddedUrl(a: string, b: string)
    requires '/' !in a && '/' !in b && |b| > 0
    ensures HostAsWritten("http://" + a + "/?u=http://" + b) == b
    ensures Host("http://" + a + "/?u=http://" + b) == a
  {
    EmbeddedLastPiece(a, b);
    EmbeddedAuthority(a, b);
  }

  lemma EmbeddedLastPiece(a: string, b: string)
    requires '/' !in b && |b| > 0
    ensures HostAsWritten("http://" + a + "/?u=http://" + b) == b
  {
    var url := "http://" + a + "/?u=http://" + b;
    var x := "http://" + a + "/?u=http:";
    assert url == x + "//" + b;
    assert x[|x| - 1] == ':';
    NoSlashNoDoubleSlash(b);
    HostAfterLastDoubleSlash(x, b);
    SplitCharHead(b, "", '/');
    assert b + "" == b;
  }

  lemma EmbeddedAuthority(a: string, b: string)
    requires '/' !in a
    ensures Host("http://" + a + "/?u=http://" + b) == a
  {
    assert "http://" + a + "/?u=http://" + b == "http:" + "//" + a + ("/?u=http://" + b);
    HostOfAuthority("http:", a, "/?u=http://" + b);
  }
}
