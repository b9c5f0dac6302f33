/// The split of the PostgreSQL connection URI into the libpq environment
/// variables (`setup`). `urlparse` itself is not modelled: the URI's
/// network location and path are the inputs.
module ConnectionUri {
  import opened Json

  /** The values `setup` stores in PGUSER, PGPASSWORD, PGHOST, PGPORT and
      PGDATABASE. */
  datatype ConnParams = ConnParams(user: string, password: string, host: string, port: string, database: string)

  /** `s.split(sep, 1)`: the text before the first `sep` and the text after
      it, or `[s]` when `sep` does not occur. */
  function SplitFirst(s: string, sep: char): (r: seq<string>)
    ensures sep !in s ==> r == [s]
    ensures sep in s ==> |r| == 2 && sep !in r[0] && r[0] + [sep] + r[1] == s
  {
    if s == [] then [s]
    else if s[0] == sep then
      assert s == [] + [sep] + s[1..];
      ["", s[1..]]
    else
      var t := SplitFirst(s[1..], sep);
      assert s == [s[0]] + s[1..];
      if |t| == 1 then [s]
      else
        assert [s[0]] + t[0] + [sep] + t[1] == [s[0]] + (t[0] + [sep] + t[1]);
        [[s[0]] + t[0], t[1]]
  }

  /** `s.rsplit(sep, 1)`: the text before the last `sep` and the text after
      it, or `[s]` when `sep` does not occur. */
  function SplitLast(s: string, sep: char): (r: seq<string>)
    ensures sep !in s ==> r == [s]
    ensures sep in s ==> |r| == 2 && sep !in r[1] && r[0] + [sep] + r[1] == s
  {
    if s == [] then [s]
    else
      var n := |s| - 1;
      assert s == s[..n] + [s[n]];
      if s[n] == sep then
        assert s == s[..n] + [sep] + "";
        [s[..n], ""]
      else
        var t := SplitLast(s[..n], sep);
        if |t| == 1 then [s]
        else
          assert t[0] + [sep] + (t[1] + [s[n]]) == (t[0] + [sep] + t[1]) + [s[n]];
          [t[0], t[1] + [s[n]]]
  }

  /** `parts[i]`, raising IndexError past the end. */
  function Part(parts: seq<string>, i: nat): (r: Result<string>)
    ensures r.Ok? <==> i < |parts|
    ensures r.Ok? ==> r.value == parts[i]
    ensures r.Err? ==> r.error == IndexError
  {
    if i < |parts| then Ok(parts[i]) else Err(IndexError)
  }

  function StripLeading(s: string, c: char): (r: string)
    ensures r == [] || r[0] != c
    ensures |r| <= |s| && r == s[|s| - |r|..]
    ensures forall k :: 0 <= k < |s| - |r| ==> s[k] == c
  {
    if s != [] && s[0] == c then StripLeading(s[1..], c) else s
  }

  function StripTrailing(s: string, c: char): (r: string)
    ensures r == [] || r[|r| - 1] != c
    ensures |r| <= |s| && r == s[..|r|]
    ensures forall k :: |r| <= k < |s| ==> s[k] == c
  {
    if s != [] && s[|s| - 1] == c then StripTrailing(s[..|s| - 1], c) else s
  }

  /** `s.strip(c)`: `s` without its leading and trailing `c`s. */
  function Strip(s: string, c: char): (r: string)
    ensures r == [] || (r[0] != c && r[|r| - 1] != c)
    ensures exists i, j :: (0 <= i <= j <= |s| && r == s[i..j]
      && (forall k :: 0 <= k < i ==> s[k] == c) && (forall k :: j <= k < |s| ==> s[k] == c))
  {
    var t := StripLeading(s, c);
    var r := StripTrailing(t, c);
    StripSlice(s, c, t, r);
    r
  }

  /** What `Strip` keeps is the slice of `s` between the stripped ends:
      `t` is `s` cut at the front, `r` is `t` cut at the back. */
  lemma StripSlice(s: string, c: char, t: string, r: string)
    requires |t| <= |s| && t == s[|s| - |t|..] && forall k :: 0 <= k < |s| - |t| ==> s[k] == c
    requires |r| <= |t| && r == t[..|r|] && forall k :: |r| <= k < |t| ==> t[k] == c
    requires t == [] || t[0] != c
    requires r == [] || r[|r| - 1] != c
    ensures r == [] || (r[0] != c && r[|r| - 1] != c)
    ensures exists i, j :: (0 <= i <= j <= |s| && r == s[i..j]
      && (forall k :: 0 <= k < i ==> s[k] == c) && (forall k :: j <= k < |s| ==> s[k] == c))
  {
    var i := |s| - |t|;
    var j := i + |r|;
    assert r != [] ==> r[0] == t[0];
    forall m | 0 <= m < |r|
      ensures r[m] == s[i + m]
    {
      assert r[m] == t[m];
    }
    assert r == s[i..j];
    forall k | j <= k < |s|
      ensures s[k] == c
    {
      assert s[k] == t[k - i];
    }
  }

  /** The five assignments of `setup`, in order; each subscript past the
      end of a split raises IndexError. */
  function ParseNetloc(netloc: string, path: string): (r: Result<ConnParams>)
    ensures r.Ok? ==> r.value.database == Strip(path, '/')
  {
    var user := SplitFirst(netloc, ':')[0];
    var password :- Part(SplitLast(SplitFirst(netloc, '@')[0], ':'), 1);
    var host :- Part(SplitFirst(netloc, '@'), 1);
    var port :- Part(SplitLast(SplitFirst(netloc, '@')[1], ':'), 1);
    Ok(ConnParams(user, password, SplitFirst(host, ':')[0], port, Strip(path, '/')))
  }

  /** The network location `user:password@host:port`. */
  function Netloc(user: string, password: string, host: string, port: string): (r: string)
    ensures |r| == |user| + |password| + |host| + |port| + 3
  {
    (user + [':'] + password) + ['@'] + (host + [':'] + port)
  }

  lemma {:induction false} SplitFirstAt(a: string, sep: char, b: string)
    requires sep !in a
    ensures SplitFirst(a + [sep] + b, sep) == [a, b]
  {
    var s := a + [sep] + b;
    if a == [] {
      assert s == [sep] + b && s[1..] == b;
    } else {
      assert s[1..] == a[1..] + [sep] + b;
      assert sep !in a[1..];
      SplitFirstAt(a[1..], sep, b);
      assert [a[0]] + a[1..] == a;
    }
  }

  lemma {:induction false} SplitLastAt(a: string, sep: char, b: string)
    requires sep !in b
    ensures SplitLast(a + [sep] + b, sep) == [a, b]
    decreases |b|
  {
    var s := a + [sep] + b;
    var n := |s| - 1;
    if b == [] {
      assert s[..n] == a;
    } else {
      var b' := b[..|b| - 1];
      assert s[..n] == a + [sep] + b';
      assert s[n] == b[|b| - 1];
      assert sep !in b';
      SplitLastAt(a, sep, b');
      assert b' + [s[n]] == b;
    }
  }

  lemma {:induction false} StripLeadingNone(s: string, c: char)
    requires s == [] || s[0] != c
    ensures StripLeading(s, c) == s
  {
  }

  /** A path of one `/` and a name that neither starts nor ends with `/`
      gives that name as the database. */
  lemma StripDatabase(d: string)
    requires d == [] || (d[0] != '/' && d[|d| - 1] != '/')
    ensures Strip("/" + d, '/') == d
  {
    assert ("/" + d)[1..] == d;
    assert StripLeading("/" + d, '/') == StripLeading(d, '/');
    StripLeadingNone(d, '/');
  }

  /** Once the network location splits at its first `@`, and both halves
      hold a `:`, every subscript of `setup` succeeds. */
  lemma ParseSplitNetloc(netloc: string, path: string, userinfo: string, hostport: string)
    requires SplitFirst(netloc, '@') == [userinfo, hostport]
    requires ':' in userinfo && ':' in hostport
    ensures ParseNetloc(netloc, path) == Ok(ConnParams(SplitFirst(netloc, ':')[0], SplitLast(userinfo, ':')[1],
      SplitFirst(hostport, ':')[0], SplitLast(hostport, ':')[1], Strip(path, '/')))
  {
    var password := SplitLast(userinfo, ':');
    assert |password| == 2;
    var port := SplitLast(hostport, ':');
    assert |port| == 2;
    assert Part(password, 1) == Ok(password[1]);
    assert Part(SplitFirst(netloc, '@'), 1) == Ok(hostport);
    assert Part(port, 1) == Ok(port[1]);
  }

  /** A network location `user:password@host:port` with no `:` in the user,
      password, host or port and no `@` in the user or password gives its
      parts back; the path gives the database name. */
  lemma ParseRoundTrip(u: string, p: string, h: string, n: string, d: string)
    requires ':' !in u && '@' !in u && ':' !in p && '@' !in p && ':' !in h && ':' !in n
    requires d == [] || (d[0] != '/' && d[|d| - 1] != '/')
    ensures ParseNetloc(Netloc(u, p, h, n), "/" + d) == Ok(ConnParams(u, p, h, n, d))
  {
    UserInfoSplit(u, p, h, n);
    SplitLastAt(u, ':', p);
    SplitFirstAt(h, ':', n);
    SplitLastAt(h, ':', n);
    ParseSplitNetloc(Netloc(u, p, h, n), "/" + d, u + [':'] + p, h + [':'] + n);
    StripDatabase(d);
  }

  /** The splits of `u:p@h:n` at its first `:` and its first `@`. */
  lemma UserInfoSplit(u: string, p: string, h: string, n: string)
    requires ':' !in u && '@' !in u && '@' !in p
    ensures SplitFirst(Netloc(u, p, h, n), ':')[0] == u
    ensures SplitFirst(Netloc(u, p, h, n), '@') == [u + [':'] + p, h + [':'] + n]
    ensures ':' in u + [':'] + p && ':' in h + [':'] + n
  {
    var hostport := h + [':'] + n;
    var netloc := Netloc(u, p, h, n);
    assert netloc == u + [':'] + (p + ['@'] + hostport);
    SplitFirstAt(u, ':', p + ['@'] + hostport);
    SplitFirstAt(u + [':'] + p, '@', hostport);
    assert (u + [':'] + p)[|u|] == ':';
    assert hostport[|h|] == ':';
  }

  /** Without `@` there is no host part: IndexError. */
  lemma NoAtIsIndexError(netloc: string, path: string)
    requires '@' !in netloc
    ensures ParseNetloc(netloc, path) == Err(IndexError)
  {
  }

  /** Without `:` before the first `@` there is no password: IndexError. */
  lemma NoPasswordIsIndexError(userinfo: string, hostport: string, path: string)
    requires '@' !in userinfo && ':' !in userinfo
    ensures ParseNetloc(userinfo + "@" + hostport, path) == Err(IndexError)
  {
    SplitFirstAt(userinfo, '@', hostport);
  }

  /** Without `:` after the first `@` there is no port: IndexError. */
  lemma NoPortIsIndexError(userinfo: string, hostport: string, path: string)
    requires '@' !in userinfo && ':' in userinfo && ':' !in hostport
    ensures ParseNetloc(userinfo + "@" + hostport, path) == Err(IndexError)
  {
    SplitFirstAt(userinfo, '@', hostport);
  }

  /** The user is cut at the first `:` but the password at the last one,
      so a password holding `:` loses everything up to its last `:`. */
  lemma ColonInPasswordIsCut(u: string, p1: string, p2: string, h: string, n: string, d: string)
    requires ':' !in u && '@' !in u && ':' !in p1 && '@' !in p1 && ':' !in p2 && '@' !in p2 && ':' !in h && ':' !in n
    ensures ParseNetloc(Netloc(u, p1 + [':'] + p2, h, n), "/" + d) == Ok(ConnParams(u, p2, h, n, Strip("/" + d, '/')))
  {
    var p := p1 + [':'] + p2;
    UserInfoSplit(u, p, h, n);
    assert u + [':'] + p == (u + [':'] + p1) + [':'] + p2;
    SplitLastAt(u + [':'] + p1, ':', p2);
    SplitFirstAt(h, ':', n);
    SplitLastAt(h, ':', n);
    ParseSplitNetloc(Netloc(u, p, h, n), "/" + d, u + [':'] + p, h + [':'] + n);
  }

  /** The same split taking the password after the first `:` of the user
      information, as the user is taken before it. */
  function ParseNetlocCorrected(netloc: string, path: string): (r: Result<ConnParams>)
    ensures r.Ok? ==> r.value.database == Strip(path, '/')
  {
    var user := SplitFirst(netloc, ':')[0];
    var password :- Part(SplitFirst(SplitFirst(netloc, '@')[0], ':'), 1);
    var host :- Part(SplitFirst(netloc, '@'), 1);
    var port :- Part(SplitLast(SplitFirst(netloc, '@')[1], ':'), 1);
    Ok(ConnParams(user, password, SplitFirst(host, ':')[0], port, Strip(path, '/')))
  }

  /** With the corrected split, a password may hold `:`: every part comes
      back. */
  lemma CorrectedRoundTrip(u: string, p: string, h: string, n: string, d: string)
    requires ':' !in u && '@' !in u && '@' !in p && ':' !in h && ':' !in n
    requires d == [] || (d[0] != '/' && d[|d| - 1] != '/')
    ensures ParseNetlocCorrected(Netloc(u, p, h, n), "/" + d) == Ok(ConnParams(u, p, h, n, d))
  {
    var userinfo := u + [':'] + p;
    var hostport := h + [':'] + n;
    UserInfoSplit(u, p, h, n);
    SplitFirstAt(u, ':', p);
    SplitFirstAt(h, ':', n);
    SplitLastAt(h, ':', n);
    StripDatabase(d);
    var password := SplitFirst(userinfo, ':');
    var port := SplitLast(hostport, ':');
    assert Part(password, 1) == Ok(p);
    assert Part(SplitFirst(Netloc(u, p, h, n), '@'), 1) == Ok(hostport);
    assert Part(port, 1) == Ok(n);
  }
}
