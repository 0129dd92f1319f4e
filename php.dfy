/** The PHP string semantics the plugin relies on: `trim`, `rtrim`,
    `empty`, truthiness of a string, `pathinfo(..., PATHINFO_FILENAME)`
    and `implode`. */
module Php {
  import opened Wrappers

  /** The characters PHP's `trim` strips when no list is given:
      space, tab, line feed, carriage return, NUL and vertical tab. */
  const TrimChars: set<char> := {' ', '\t', '\n', '\r', 0 as char, 11 as char}

  /** `empty($s)` for a string: only "" and "0" are empty. */
  predicate EmptyString(s: string) {
    s == "" || s == "0"
  }

  /** `empty($v)` for a nullable string. */
  predicate Empty(v: Option<string>) {
    v.None? || EmptyString(v.value)
  }

  /** A nullable string used as a condition (`if ($v)`). */
  predicate Truthy(v: Option<string>) {
    !Empty(v)
  }

  /** `ltrim($s, $cs)`: drops the longest prefix made of characters in `cs`. */
  function LTrim(s: string, cs: set<char>): (r: string)
    ensures |r| <= |s| && r == s[|s| - |r|..]
    ensures forall k :: 0 <= k < |s| - |r| ==> s[k] in cs
    ensures r == [] || r[0] !in cs
  {
    if |s| > 0 && s[0] in cs then LTrim(s[1..], cs) else s
  }

  /** `rtrim($s, $cs)`: drops the longest suffix made of characters in `cs`. */
  function RTrim(s: string, cs: set<char>): (r: string)
    ensures |r| <= |s| && r == s[..|r|]
    ensures forall k :: |r| <= k < |s| ==> s[k] in cs
    ensures r == [] || r[|r| - 1] !in cs
  {
    if |s| > 0 && s[|s| - 1] in cs then RTrim(s[..|s| - 1], cs) else s
  }

  /** `trim($s)` with PHP's default character list. */
  function Trim(s: string): (r: string)
    ensures |r| <= |s|
    ensures r == [] || (r[0] !in TrimChars && r[|r| - 1] !in TrimChars)
    ensures r == [] <==> forall k :: 0 <= k < |s| ==> s[k] in TrimChars
    // The result is what lies between a whitespace prefix and a
    // whitespace suffix of the input.
    ensures exists i, j :: 0 <= i <= j <= |s| && r == s[i..j]
                           && (forall k :: 0 <= k < i ==> s[k] in TrimChars)
                           && (forall k :: j <= k < |s| ==> s[k] in TrimChars)
  {
    var l := LTrim(s, TrimChars);
    var r := RTrim(l, TrimChars);
    var i, j := |s| - |l|, |s| - |l| + |r|;
    assert r == s[i..j] && forall k :: j <= k < |s| ==> s[k] == l[k - i];
    r
  }

  /** Trimming an already trimmed string changes nothing. */
  lemma TrimIdempotent(s: string)
    ensures Trim(Trim(s)) == Trim(s)
  {
  }

  /** Index of the first occurrence of `c` in `s`, like `strpos`. */
  function IndexOf(s: string, c: char): (r: Option<nat>)
    ensures r.Some? ==> r.value < |s| && s[r.value] == c && c !in s[..r.value]
    ensures r.None? <==> c !in s
  {
    if |s| == 0 then None
    else if s[0] == c then Some(0)
    else
      match IndexOf(s[1..], c)
      case None => None
      case Some(i) => assert s[..i + 1] == [s[0]] + s[1..][..i]; Some(i + 1)
  }

  /** Index of the last occurrence of `c` in `s`, like `strrpos`. */
  function LastIndexOf(s: string, c: char): (r: Option<nat>)
    ensures r.Some? ==> r.value < |s| && s[r.value] == c && c !in s[r.value + 1..]
    ensures r.None? <==> c !in s
  {
    if |s| == 0 then None
    else if s[|s| - 1] == c then Some(|s| - 1)
    else
      match LastIndexOf(s[..|s| - 1], c)
      case None =>
        assert s == s[..|s| - 1] + [s[|s| - 1]];
        None
      case Some(i) =>
        assert s[i + 1..] == s[..|s| - 1][i + 1..] + [s[|s| - 1]];
        Some(i)
  }

  /** `pathinfo($filename, PATHINFO_FILENAME)`: everything before the last
      `.`, or the whole name when it has no `.`. */
  function Stem(filename: string): (r: string)
    ensures |r| <= |filename| && r == filename[..|r|]
    ensures '.' !in filename ==> r == filename
    ensures '.' in filename ==> |r| < |filename| && filename[|r|] == '.' && '.' !in filename[|r| + 1..]
  {
    match LastIndexOf(filename, '.')
    case None => filename
    case Some(i) => filename[..i]
  }

  /** `implode($sep, $parts)`. */
  function Join(parts: seq<string>, sep: string): string {
    if |parts| == 0 then ""
    else if |parts| == 1 then parts[0]
    else parts[0] + sep + Join(parts[1..], sep)
  }

  /** The longest prefix of `s` holding no character of `stops`. */
  function TakeUntil(s: string, stops: set<char>): (r: string)
    ensures |r| <= |s| && r == s[..|r|]
    ensures forall k :: 0 <= k < |r| ==> r[k] !in stops
    ensures |r| < |s| ==> s[|r|] in stops
  {
    if |s| == 0 || s[0] in stops then "" else [s[0]] + TakeUntil(s[1..], stops)
  }

  predicate IsSchemeChar(c: char) {
    ('a' <= c <= 'z') || ('A' <= c <= 'Z') || ('0' <= c <= '9') || c == '+' || c == '-' || c == '.'
  }

  /** The authority part of a URL written `scheme://authority...` or
      `//authority...`. */
  function UrlAuthority(url: string): (r: Option<string>)
    ensures r.Some? ==> forall k :: 0 <= k < |r.value| ==> r.value[k] !in {'/', '?', '#'}
  {
    if |url| >= 2 && url[..2] == "//" then Some(TakeUntil(url[2..], {'/', '?', '#'}))
    else
      match IndexOf(url, ':')
      case None => None
      case Some(i) =>
        if 0 < i && i + 3 <= |url| && url[i + 1..i + 3] == "//"
           && ('a' <= url[0] <= 'z' || 'A' <= url[0] <= 'Z')
           && (forall k :: 0 <= k < i ==> IsSchemeChar(url[k]))
        then Some(TakeUntil(url[i + 3..], {'/', '?', '#'}))
        else None
  }

  /** The host part of an authority `user@host:port`: it starts after the
      last `@` (or at the start) and runs to the first `:` after that, or
      to the end. */
  function HostOf(authority: string): (h: string)
    ensures ':' !in h
    ensures forall c :: c in h ==> c in authority
    ensures exists i :: 0 <= i <= |authority|
                        && (i == 0 || authority[i - 1] == '@')
                        && '@' !in authority[i..]
                        && i + |h| <= |authority|
                        && authority[i..i + |h|] == h
                        && (i + |h| == |authority| || authority[i + |h|] == ':')
  {
    var i: nat := match LastIndexOf(authority, '@')
      case None => 0
      case Some(at) => at + 1;
    var h := TakeUntil(authority[i..], {':'});
    assert authority[i..i + |h|] == h;
    assert ':' !in h by {
      assert forall k :: 0 <= k < |h| ==> h[k] != ':';
    }
    assert forall c :: c in h ==> c in authority by {
      assert forall k :: 0 <= k < |h| ==> h[k] == authority[i + k];
    }
    h
  }

  /** `parse_url($url, PHP_URL_HOST)` for the two URL forms above: the
      authority without user information and port. */
  function UrlHost(url: string): (r: Option<string>)
    ensures r.Some? <==> UrlAuthority(url).Some?
    ensures r.Some? ==> r.value == HostOf(UrlAuthority(url).value)
    ensures r.Some? ==> forall k :: 0 <= k < |r.value| ==> r.value[k] !in {'/', '?', '#'}
  {
    match UrlAuthority(url)
    case None => None
    case Some(authority) =>
      var h := HostOf(authority);
      assert forall k :: 0 <= k < |h| ==> h[k] !in {'/', '?', '#'} by {
        assert forall k :: 0 <= k < |h| ==> h[k] in h;
        assert forall c :: c in authority ==> c !in {'/', '?', '#'};
      }
      Some(h)
  }

  /** `TakeUntil` stops at the first stop character after a prefix free
      of them. */
  lemma {:induction false} TakeUntilPrefix(a: string, b: string, stops: set<char>)
    requires forall k :: 0 <= k < |a| ==> a[k] !in stops
    requires |b| == 0 || b[0] in stops
    ensures TakeUntil(a + b, stops) == a
  {
    if |a| == 0 {
      assert a + b == b;
    } else {
      assert (a + b)[0] == a[0] && (a + b)[1..] == a[1..] + b;
      TakeUntilPrefix(a[1..], b, stops);
    }
  }

  /** `strpos` finds the first occurrence after a prefix free of it. */
  lemma {:induction false} IndexOfAfter(a: string, b: string, c: char)
    requires c !in a && |b| > 0 && b[0] == c
    ensures IndexOf(a + b, c) == Some(|a|)
  {
    if |a| == 0 {
      assert a + b == b;
    } else {
      assert (a + b)[0] == a[0] && (a + b)[1..] == a[1..] + b;
      IndexOfAfter(a[1..], b, c);
    }
  }

  predicate IsScheme(scheme: string) {
    && |scheme| > 0 && ('a' <= scheme[0] <= 'z' || 'A' <= scheme[0] <= 'Z')
    && forall k :: 0 <= k < |scheme| ==> IsSchemeChar(scheme[k])
  }

  /** After a scheme and `://` the authority runs to the first `/`, `?` or `#`. */
  lemma SchemeAuthority(scheme: string, rest: string)
    requires IsScheme(scheme)
    ensures UrlAuthority(scheme + "://" + rest) == Some(TakeUntil(rest, {'/', '?', '#'}))
  {
    var url := scheme + "://" + rest;
    var i := |scheme|;
    assert !(|url| >= 2 && url[..2] == "//") by {
      assert url[..2][0] == url[0] == scheme[0];
    }
    assert IndexOf(url, ':') == Some(i) by {
      assert ':' !in scheme by {
        assert forall k :: 0 <= k < |scheme| ==> scheme[k] != ':';
      }
      assert url == scheme + ("://" + rest);
      IndexOfAfter(scheme, "://" + rest, ':');
    }
    assert url[i + 1..i + 3] == "//" && url[i + 3..] == rest by {
      assert url == scheme + ("://" + rest);
    }
    assert forall k :: 0 <= k < i ==> IsSchemeChar(url[k]) by {
      assert forall k :: 0 <= k < i ==> url[k] == scheme[k];
    }
  }

  /** An absolute URL `scheme://host/path` has exactly that host. */
  lemma AbsoluteUrlHost(scheme: string, host: string, path: string)
    requires IsScheme(scheme)
    requires forall k :: 0 <= k < |host| ==> host[k] !in {'/', '?', '#', '@', ':'}
    requires |path| == 0 || path[0] in {'/', '?', '#'}
    ensures UrlHost(scheme + "://" + host + path) == Some(host)
  {
    assert scheme + "://" + host + path == scheme + "://" + (host + path);
    SchemeAuthority(scheme, host + path);
    TakeUntilPrefix(host, path, {'/', '?', '#'});
    assert '@' !in host by {
      assert forall k :: 0 <= k < |host| ==> host[k] != '@';
    }
    TakeUntilPrefix(host, "", {':'});
    assert host + "" == host;
  }

  /** A path such as `/uploads/a.jpg` has no host. */
  lemma RootRelativeHasNoHost(url: string)
    requires |url| >= 1 && url[0] == '/' && (|url| == 1 || url[1] != '/')
    ensures UrlHost(url).None?
  {
    assert !(|url| >= 2 && url[..2] == "//") by {
      if |url| >= 2 {
        assert url[..2][1] == url[1];
      }
    }
    assert UrlAuthority(url).None?;
  }
}
