/**
 * The endpoint catalogue of BullionTest/APIConfiguration.swift: the HTTP
 * verbs with their raw values, and for each endpoint its path, verb and URL.
 * The base URL is a parameter (it comes from EnvLoader.baseURL).
 */
module APIConfiguration {
  import opened Common
  import Text

  datatype HTTPMethod = Get | Post | Put | Delete

  /** The enum's `rawValue`. */
  function RawValue(m: HTTPMethod): string {
    match m
    case Get => "GET"
    case Post => "POST"
    case Put => "PUT"
    case Delete => "DELETE"
  }

  /** The enum's synthesised `init?(rawValue:)`. */
  function FromRawValue(s: string): (r: Option<HTTPMethod>)
    ensures r.Some? <==> s in {"GET", "POST", "PUT", "DELETE"}
  {
    if s == "GET" then Some(Get)
    else if s == "POST" then Some(Post)
    else if s == "PUT" then Some(Put)
    else if s == "DELETE" then Some(Delete)
    else None
  }

  /** The raw values are exactly the four verb names, and each names one verb. */
  lemma RawValueRoundTrip(m: HTTPMethod, s: string)
    ensures FromRawValue(RawValue(m)) == Some(m)
    ensures FromRawValue(s) == Some(m) ==> RawValue(m) == s
  {
  }

  datatype APIEndpoint =
    | Login
    | Register
    | AdminList(offset: int, limit: int)
    | UserDetail(id: string)

  const AuthLoginPath := "/api/v1/auth/login"
  const AuthRegisterPath := "/api/v1/auth/register"
  const AdminPath := "/api/v1/admin"

  /** `path`: fixed for the two auth endpoints, string interpolation for the others. */
  function Path(e: APIEndpoint): (r: string)
    ensures e == Login ==> r == "/api/v1/auth/login"
    ensures e == Register ==> r == "/api/v1/auth/register"
    ensures e.AdminList? ==> r == "/api/v1/admin?offset=" + Text.IntToDecimal(e.offset) + "&limit=" + Text.IntToDecimal(e.limit)
    ensures e.UserDetail? ==> r == "/api/v1/admin/" + e.id
  {
    match e
    case Login => AuthLoginPath
    case Register => AuthRegisterPath
    case AdminList(offset, limit) =>
      assert AdminPath + "?offset=" == "/api/v1/admin?offset=";
      AdminPath + "?offset=" + Text.IntToDecimal(offset) + "&limit=" + Text.IntToDecimal(limit)
    case UserDetail(id) => AdminPath + "/" + id
  }

  /** `method`: the auth endpoints post, the admin endpoints get. */
  function Method(e: APIEndpoint): (m: HTTPMethod)
    ensures m == Post <==> e.Login? || e.Register?
    ensures m == Get <==> e.AdminList? || e.UserDetail?
  {
    match e
    case Login | Register => Post
    case AdminList(_, _) | UserDetail(_) => Get
  }

  /** `url`: the base URL followed by the path. */
  function Url(e: APIEndpoint, baseURL: string): (r: string)
    ensures |r| == |baseURL| + |Path(e)|
    ensures r[..|baseURL|] == baseURL && r[|baseURL|..] == Path(e)
  {
    baseURL + Path(e)
  }

  /** Decimal renderings never contain `&`. */
  lemma DecimalHasNoAmpersand(i: int)
    ensures '&' !in Text.IntToDecimal(i)
  {
    var d := Text.IntToDecimal(i);
    forall k | 0 <= k < |d| ensures d[k] != '&' { }
  }

  /** In `a + [c] + b` with no `c` in `a`, the first `c` sits right after `a`. */
  lemma {:induction false} FirstOccurrence(a: string, c: char, b: string)
    requires c !in a
    ensures Text.IndexOf(a + [c] + b, c) == Some(|a|)
  {
    if a != [] {
      assert (a + [c] + b)[1..] == a[1..] + [c] + b;
      FirstOccurrence(a[1..], c, b);
    }
  }

  /** `a + [c] + b == a' + [c] + b'` with `c` in neither `a` nor `a'` splits at the same place. */
  lemma SplitAtFirst(a: string, b: string, a': string, b': string, c: char)
    requires c !in a && c !in a'
    requires a + [c] + b == a' + [c] + b'
    ensures a == a' && b == b'
  {
    var s := a + [c] + b;
    FirstOccurrence(a, c, b);
    FirstOccurrence(a', c, b');
    assert a == s[..|a|] == a';
    assert b == s[|a| + 1..] == b';
  }

  /** The characters that tell the four kinds of path apart. */
  lemma PathMarks(e: APIEndpoint)
    ensures |Path(e)| >= 14
    ensures Path(e)[9] == (if e.Login? || e.Register? then 'u' else 'd')
    ensures e.Login? ==> Path(e)[13] == 'l'
    ensures e.Register? ==> Path(e)[13] == 'r'
    ensures e.AdminList? ==> Path(e)[13] == '?'
    ensures e.UserDetail? ==> Path(e)[13] == '/'
  {
  }

  /**
   * The verb can be read off the path: POST exactly for the paths under
   * `/api/v1/auth/`, GET exactly for those under `/api/v1/admin`.
   */
  lemma VerbFollowsPath(e: APIEndpoint)
    ensures |Path(e)| >= 13
    ensures Method(e) == Post <==> Path(e)[..13] == "/api/v1/auth/"
    ensures Method(e) == Get <==> Path(e)[..13] == AdminPath
  {
    var p := Path(e);
    match e
    case Login =>
    case Register =>
    case AdminList(o, l) =>
      assert p[..13] == AdminPath by {
        PrefixOf(AdminPath, "?offset=" + Text.IntToDecimal(o) + "&limit=" + Text.IntToDecimal(l));
        assert p == AdminPath + ("?offset=" + Text.IntToDecimal(o) + "&limit=" + Text.IntToDecimal(l));
      }
      assert p[..13] != "/api/v1/auth/" by { assert p[9] == 'd'; }
    case UserDetail(id) =>
      PrefixOf(AdminPath, "/" + id);
      assert p[..13] != "/api/v1/auth/" by { assert p[9] == 'd'; }
  }

  lemma PrefixOf(a: string, b: string)
    ensures (a + b)[..|a|] == a
  {
  }

  /** An `adminList` path, grouped as prefix, offset, `&` and the limit part. */
  lemma AdminListPathShape(offset: int, limit: int)
    ensures Path(AdminList(offset, limit)) ==
      "/api/v1/admin?offset=" + (Text.IntToDecimal(offset) + ['&'] + ("limit=" + Text.IntToDecimal(limit)))
  {
    var d, l := Text.IntToDecimal(offset), Text.IntToDecimal(limit);
    assert AdminPath + "?offset=" == "/api/v1/admin?offset=";
    assert "&limit=" == ['&'] + "limit=";
    Regroup(AdminPath + "?offset=", d, ['&'], "limit=", l);
  }

  lemma Regroup(p: string, d: string, a: string, m: string, l: string)
    ensures p + d + (a + m) + l == p + (d + a + (m + l))
  {
  }

  /** Equal strings with the same prefix have equal rests. */
  lemma PrefixCancel(pre: string, x: string, y: string)
    requires pre + x == pre + y
    ensures x == y
  {
    assert x == (pre + x)[|pre|..];
    assert y == (pre + y)[|pre|..];
  }

  lemma AdminListPathInjective(o1: int, l1: int, o2: int, l2: int)
    requires Path(AdminList(o1, l1)) == Path(AdminList(o2, l2))
    ensures o1 == o2 && l1 == l2
  {
    AdminListPathShape(o1, l1);
    AdminListPathShape(o2, l2);
    var d1, d2 := Text.IntToDecimal(o1), Text.IntToDecimal(o2);
    var rest1, rest2 := "limit=" + Text.IntToDecimal(l1), "limit=" + Text.IntToDecimal(l2);
    PrefixCancel("/api/v1/admin?offset=", d1 + ['&'] + rest1, d2 + ['&'] + rest2);
    DecimalHasNoAmpersand(o1);
    DecimalHasNoAmpersand(o2);
    SplitAtFirst(d1, rest1, d2, rest2, '&');
    Text.IntToDecimalInjective(o1, o2);
    PrefixCancel("limit=", Text.IntToDecimal(l1), Text.IntToDecimal(l2));
    Text.IntToDecimalInjective(l1, l2);
  }

  /**
   * Different endpoints have different paths: the catalogue never routes two
   * distinct requests to the same resource, and an `adminList` path
   * determines both numbers.
   */
  lemma PathInjective(e1: APIEndpoint, e2: APIEndpoint)
    requires Path(e1) == Path(e2)
    ensures e1 == e2
  {
    PathMarks(e1);
    PathMarks(e2);
    if e1.AdminList? && e2.AdminList? {
      AdminListPathInjective(e1.offset, e1.limit, e2.offset, e2.limit);
    } else if e1.UserDetail? && e2.UserDetail? {
      assert e1.id == Path(e1)[14..] == e2.id;
    }
  }

  /** The same endpoint and base URL always give the same URL, and different endpoints under one base URL give different URLs. */
  lemma UrlInjective(e1: APIEndpoint, e2: APIEndpoint, baseURL: string)
    ensures Url(e1, baseURL) == Url(e2, baseURL) <==> e1 == e2
  {
    if Url(e1, baseURL) == Url(e2, baseURL) {
      assert Path(e1) == Url(e1, baseURL)[|baseURL|..];
      PathInjective(e1, e2);
    }
  }
}
