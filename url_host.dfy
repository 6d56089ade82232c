/**
 * The `host` component of a URL, as the audit reads it from `url.parse(u).host`:
 * a scheme, `://`, then everything up to the first `/`, `?` or `#` (a port,
 * when present, stays part of the host). A URL with no `scheme://` prefix has
 * no host here (`None`). Node's `url.parse` also reads a host from some schemes
 * written without `//` (`about:`, `mailto:`, `data:`) and ends the host at
 * further characters; those differences are not modelled.
 */
module UrlHost {
  import opened Wrappers

  predicate IsSchemeChar(c: char) {
    'a' <= c <= 'z' || 'A' <= c <= 'Z' || '0' <= c <= '9' || c == '+' || c == '-' || c == '.'
  }

  /** The characters that end the host component. */
  predicate EndsHost(c: char) {
    c == '/' || c == '?' || c == '#'
  }

  predicate NoHostEnd(s: string) {
    forall i :: 0 <= i < |s| ==> !EndsHost(s[i])
  }

  lemma NoHostEndConcat(a: string, b: string)
    requires NoHostEnd(a) && NoHostEnd(b)
    ensures NoHostEnd(a + b)
  {
    forall i | 0 <= i < |a + b| ensures !EndsHost((a + b)[i]) {
      if i < |a| { assert (a + b)[i] == a[i]; } else { assert (a + b)[i] == b[i - |a|]; }
    }
  }

  /** The length of the longest prefix of `s` made of scheme characters. */
  function SchemeLength(s: string): (n: nat)
    ensures n <= |s|
    ensures forall i :: 0 <= i < n ==> IsSchemeChar(s[i])
    ensures n < |s| ==> !IsSchemeChar(s[n])
  {
    if s == [] || !IsSchemeChar(s[0]) then 0 else 1 + SchemeLength(s[1..])
  }

  /** The longest prefix of `rest` that holds no host-ending character. */
  function HostPart(rest: string): (h: string)
    ensures h <= rest && NoHostEnd(h)
    ensures |h| < |rest| ==> EndsHost(rest[|h|])
  {
    if rest == [] || EndsHost(rest[0]) then [] else [rest[0]] + HostPart(rest[1..])
  }

  function Host(url: string): (h: Option<string>)
    ensures h.Some? ==> NoHostEnd(h.value)
  {
    var n := SchemeLength(url);
    if 0 < n && n + 3 <= |url| && url[n..n + 3] == "://" then Some(HostPart(url[n + 3..])) else None
  }

  /**
   * A URL assembled from a scheme, a host and a path (empty, or starting
   * with `/`, `?` or `#`) parses back to that host.
   */
  lemma {:induction false} HostOfAssembled(scheme: string, host: string, path: string)
    requires scheme != [] && forall i :: 0 <= i < |scheme| ==> IsSchemeChar(scheme[i])
    requires NoHostEnd(host)
    requires path == [] || EndsHost(path[0])
    ensures Host(scheme + "://" + host + path) == Some(host)
  {
    var url := scheme + "://" + host + path;
    assert url == scheme + ("://" + host + path);
    SchemeLengthOfPrefix(scheme, "://" + host + path);
    assert url[|scheme|..|scheme| + 3] == "://";
    assert url[|scheme| + 3..] == host + path;
    HostPartOfPrefix(host, path);
  }

  lemma {:induction false} SchemeLengthOfPrefix(scheme: string, rest: string)
    requires forall i :: 0 <= i < |scheme| ==> IsSchemeChar(scheme[i])
    requires rest != [] && !IsSchemeChar(rest[0])
    ensures SchemeLength(scheme + rest) == |scheme|
    decreases |scheme|
  {
    if scheme != [] {
      assert (scheme + rest)[1..] == scheme[1..] + rest;
      SchemeLengthOfPrefix(scheme[1..], rest);
    } else {
      assert scheme + rest == rest;
    }
  }

  lemma {:induction false} HostPartOfPrefix(host: string, path: string)
    requires NoHostEnd(host)
    requires path == [] || EndsHost(path[0])
    ensures HostPart(host + path) == host
    decreases |host|
  {
    if host != [] {
      assert (host + path)[1..] == host[1..] + path;
      HostPartOfPrefix(host[1..], path);
    } else {
      assert host + path == path;
    }
  }
}
