/**
 * Where the library panel fetches from: the configured backend base URL
 * (`useBackendBase`) and the listing endpoint built from it and the page
 * size.
 */
module Backend {
  import opened Wrappers

  /** The path and query-string prefix of the listing endpoint. */
  const RecentPath: string := "/api/recent?limit="

  /** `s.replace(/\/$/, '')`: removes one `/` at the very end, if there is one. */
  function StripTrailingSlash(s: string): (r: string)
    ensures r == s || r + "/" == s
    ensures |r| < |s| <==> (s != [] && s[|s| - 1] == '/')
  {
    if s != [] && s[|s| - 1] == '/' then s[..|s| - 1] else s
  }

  /**
   * `useBackendBase`: the configured `VITE_BACKEND_URL` (absent or empty
   * means "same origin") with one trailing slash removed.
   */
  function BackendBase(env: Option<string>): (r: string)
    ensures env == None ==> r == ""
    ensures env.Some? && (env.value == [] || env.value[|env.value| - 1] != '/') ==> r == env.value
    ensures env.Some? && env.value != [] && env.value[|env.value| - 1] == '/' ==> r + "/" == env.value
  {
    StripTrailingSlash(env.GetOr(""))
  }

  predicate IsDigit(c: char) {
    '0' <= c <= '9'
  }

  predicate AllDigits(s: string) {
    forall i :: 0 <= i < |s| ==> IsDigit(s[i])
  }

  /**
   * The decimal text of a page size, as a template literal renders a
   * non-negative integer: digits only, with no leading zero except in "0".
   */
  function Decimal(n: nat): (r: string)
    ensures r != [] && AllDigits(r)
    ensures r[0] != '0' || r == "0"
    ensures r == "0" <==> n == 0
  {
    if n < 10 then ['0' + n as char] else Decimal(n / 10) + ['0' + (n % 10) as char]
  }

  /** The value of a string of decimal digits, read most significant digit first. */
  function DigitsValue(s: string): nat
    requires AllDigits(s)
  {
    if s == [] then 0 else 10 * DigitsValue(s[..|s| - 1]) + (s[|s| - 1] - '0') as nat
  }

  /** Reading back the decimal text of `n` gives `n`. */
  lemma {:induction false} DecimalRoundTrip(n: nat)
    ensures DigitsValue(Decimal(n)) == n
  {
    if n >= 10 {
      var d := Decimal(n);
      assert d[..|d| - 1] == Decimal(n / 10);
      DecimalRoundTrip(n / 10);
    }
  }

  /**
   * The listing endpoint (`${base}/api/recent?limit=${limit}`, or the bare
   * relative path when no base is configured). Both branches are the plain
   * concatenation of base, path and page size.
   */
  function Endpoint(base: string, limit: nat): (r: string)
    ensures r == base + RecentPath + Decimal(limit)
  {
    if base != "" then base + RecentPath + Decimal(limit) else RecentPath + Decimal(limit)
  }

  /** The longest run of decimal digits at the end of `s`. */
  function TrailingDigits(s: string): (d: string)
    ensures |d| <= |s| && d == s[|s| - |d|..] && AllDigits(d)
  {
    if s != [] && IsDigit(s[|s| - 1]) then TrailingDigits(s[..|s| - 1]) + [s[|s| - 1]] else []
  }

  /**
   * Takes a listing endpoint apart again into its base and its page size;
   * `None` when `e` does not end in the listing path and a number.
   */
  function SplitEndpoint(e: string): Option<(string, nat)> {
    var d := TrailingDigits(e);
    var rest := e[..|e| - |d|];
    if d != [] && |rest| >= |RecentPath| && rest[|rest| - |RecentPath|..] == RecentPath
    then Some((rest[..|rest| - |RecentPath|], DigitsValue(d)))
    else None
  }

  /** The digits appended after a non-digit are exactly the trailing digit run. */
  lemma {:induction false} TrailingDigitsOfAppend(x: string, d: string)
    requires AllDigits(d)
    requires x != [] && !IsDigit(x[|x| - 1])
    ensures TrailingDigits(x + d) == d
  {
    if d == [] {
      assert x + d == x;
    } else {
      var d' := d[..|d| - 1];
      assert (x + d)[..|x + d| - 1] == x + d';
      TrailingDigitsOfAppend(x, d');
      assert d == d' + [d[|d| - 1]];
    }
  }

  /** Every endpoint splits back into the base and page size it was built from. */
  lemma EndpointRoundTrip(base: string, limit: nat)
    ensures SplitEndpoint(Endpoint(base, limit)) == Some((base, limit))
  {
    var e := Endpoint(base, limit);
    var d := Decimal(limit);
    var x := base + RecentPath;
    assert e == x + d;
    assert x[|x| - 1] == '=';
    TrailingDigitsOfAppend(x, d);
    assert TrailingDigits(e) == d;
    var rest := e[..|e| - |d|];
    assert rest == x;
    assert x[|x| - |RecentPath|..] == RecentPath;
    assert x[..|x| - |RecentPath|] == base;
    DecimalRoundTrip(limit);
  }

  /** Two page sizes give the same endpoint only when they are equal. */
  lemma EndpointInjective(base: string, m: nat, n: nat)
    ensures Endpoint(base, m) == Endpoint(base, n) <==> m == n
  {
    EndpointRoundTrip(base, m);
    EndpointRoundTrip(base, n);
  }

  /**
   * A configured base written with one trailing slash gives the same
   * endpoint as the same base without it: no `//` before `api`.
   */
  lemma TrailingSlashIgnored(url: string, limit: nat)
    requires url == [] || url[|url| - 1] != '/'
    ensures Endpoint(BackendBase(Some(url + "/")), limit) == Endpoint(BackendBase(Some(url)), limit)
  {
    assert (url + "/")[..|url + "/"| - 1] == url;
  }
}
